/**
 Walking a tree before it is applied: Walk itself, the namespace defaulting that the reconciler does
 while walking, and the sequence of parsing, walking and applying.
 */
module ApplyGroupWalk {
  import opened Wrappers
  import opened Unstructured
  import opened ApplyGroup
  import opened ApplyGroupGrammar
  import opened ApplyGroupExecution

  /** The callback of Walk: it may replace the resource of the node or refuse it. */
  type Callback = Applier -> Result<Option<Object>, string>

  function PrefixedPaths(i: nat, ps: seq<Path>): (r: seq<Path>)
    ensures |r| == |ps| && forall k :: 0 <= k < |r| ==> r[k] == [i] + ps[k]
  {
    seq(|ps|, k requires 0 <= k < |ps| => [i] + ps[k])
  }

  /** All nodes, each before its members. */
  function Preorder(a: Applier): seq<Path>
    decreases a, 0
  {
    [[]] + PreorderFrom(a.group, 0)
  }

  function PreorderFrom(group: seq<Applier>, i: nat): seq<Path>
    requires i <= |group|
    decreases group, |group| - i
  {
    if i == |group| then [] else PrefixedPaths(i, Preorder(group[i])) + PreorderFrom(group, i + 1)
  }

  /** The nodes Walk visits and its outcome: the walked tree, or the first refusal. */
  function Walked(a: Applier, f: Callback): (seq<Path>, Result<Applier, string>)
    decreases a, 0
  {
    match f(a)
    case Err(e) => ([[]], Err(e))
    case Ok(resource) =>
      var (visited, members) := WalkedFrom(a.group, 0, f);
      ([[]] + visited,
       match members
       case Err(e) => Err(e)
       case Ok(group) => Ok(a.(resource := resource, group := group)))
  }

  function WalkedFrom(group: seq<Applier>, i: nat, f: Callback): (seq<Path>, Result<seq<Applier>, string>)
    requires i <= |group|
    decreases group, |group| - i
  {
    if i == |group| then ([], Ok([]))
    else
      var (visited, first) := Walked(group[i], f);
      match first
      case Err(e) => (PrefixedPaths(i, visited), Err(e))
      case Ok(b) =>
        var (more, rest) := WalkedFrom(group, i + 1, f);
        (PrefixedPaths(i, visited) + more,
         match rest
         case Err(e) => Err(e)
         case Ok(bs) => Ok([b] + bs))
  }

  /** Walk, which returns the tree with its resources as the callback left them. */
  method Walk(a: Applier, f: Callback) returns (visited: seq<Path>, r: Result<Applier, string>)
    ensures (visited, r) == Walked(a, f)
    decreases a
  {
    visited := [[]];
    var resource := f(a);
    if resource.Err? { return visited, Err(resource.error); }
    var members, group := [], [];
    ghost var all := WalkedFrom(a.group, 0, f);
    if all.1.Ok? { assert [] + all.1.value == all.1.value; }
    for i := 0 to |a.group|
      invariant var (more, rest) := WalkedFrom(a.group, i, f);
                && all.0 == members + more
                && all.1 == (match rest case Err(e) => Err(e) case Ok(bs) => Ok(group + bs))
    {
      ghost var tail := WalkedFrom(a.group, i + 1, f);
      var paths, b := Walk(a.group[i], f);
      members := members + PrefixedPaths(i, paths);
      if b.Err? {
        return visited + members, Err(b.error);
      }
      if tail.1.Ok? { assert group + ([b.value] + tail.1.value) == group + [b.value] + tail.1.value; }
      group := group + [b.value];
    }
    assert members + [] == members && group + [] == group;
    visited := visited + members;
    r := Ok(a.(resource := resource.value, group := group));
  }

  /**
   Walk visits nodes in depth-first order: what it visits is a prefix of that order, all of it
   exactly if no node was refused, and only the last node visited can have been refused.
   */
  lemma {:induction false} WalkIsDepthFirst(a: Applier, f: Callback)
    ensures var (visited, r) := Walked(a, f);
            && visited <= Preorder(a) && |visited| >= 1
            && (r.Ok? ==> visited == Preorder(a))
            && (forall k :: 0 <= k < |visited| ==>
                  NodeAt(a, visited[k]).Some? && (f(NodeAt(a, visited[k]).value).Err? <==> r.Err? && k == |visited| - 1))
    decreases a, |a.group| + 1
  {
    if f(a).Ok? {
      WalkMembersDepthFirst(a, 0, f);
    }
  }

  lemma {:induction false} WalkMembersDepthFirst(a: Applier, i: nat, f: Callback)
    requires i <= |a.group|
    ensures var (visited, r) := WalkedFrom(a.group, i, f);
            && visited <= PreorderFrom(a.group, i)
            && (r.Ok? ==> visited == PreorderFrom(a.group, i))
            && (r.Err? ==> |visited| >= 1)
            && (forall k :: 0 <= k < |visited| ==>
                  NodeAt(a, visited[k]).Some? && (f(NodeAt(a, visited[k]).value).Err? <==> r.Err? && k == |visited| - 1))
    decreases a, |a.group| - i
  {
    if i < |a.group| {
      var (sub, first) := Walked(a.group[i], f);
      WalkIsDepthFirst(a.group[i], f);
      var here := PrefixedPaths(i, sub);
      forall k | 0 <= k < |sub|
        ensures NodeAt(a, here[k]) == NodeAt(a.group[i], sub[k])
      {
        assert here[k][1..] == sub[k];
      }
      if first.Ok? {
        WalkMembersDepthFirst(a, i + 1, f);
      } else {
        assert here <= PrefixedPaths(i, Preorder(a.group[i]));
      }
    }
  }

  /** The nodes of a tree and those of another one with new resources: alike but for the resources. */
  predicate SameButResource(x: Applier, y: Applier, resource: Option<Object>) {
    y == x.(resource := resource, group := y.group) && |y.group| == |x.group|
  }

  /**
   The walked tree is the tree itself, node by node, with the resources the callback returned. Nothing is
   added, lost or moved.
   */
  lemma {:induction false} WalkReplacesResources(a: Applier, f: Callback, p: Path)
    requires Walked(a, f).1.Ok?
    ensures var b := Walked(a, f).1.value;
            && (NodeAt(b, p).Some? <==> NodeAt(a, p).Some?)
            && (NodeAt(a, p).Some? ==>
                  f(NodeAt(a, p).value).Ok? &&
                  SameButResource(NodeAt(a, p).value, NodeAt(b, p).value, f(NodeAt(a, p).value).value))
    decreases |p|
  {
    MembersAreWalked(a.group, 0, f);
    if p != [] && p[0] < |a.group| {
      var b := Walked(a, f).1.value;
      assert b.group[p[0]] == Walked(a.group[p[0]], f).1.value;
      WalkReplacesResources(a.group[p[0]], f, p[1..]);
    }
  }

  lemma {:induction false} MembersAreWalked(group: seq<Applier>, i: nat, f: Callback)
    requires i <= |group| && WalkedFrom(group, i, f).1.Ok?
    ensures |WalkedFrom(group, i, f).1.value| == |group| - i
    ensures forall k :: i <= k < |group| ==>
              Walked(group[k], f).1.Ok? && WalkedFrom(group, i, f).1.value[k - i] == Walked(group[k], f).1.value
    decreases |group| - i
  {
    hide Walked;
    if i < |group| { MembersAreWalked(group, i + 1, f); }
  }

  /** Depth-first order is the order in which Apply issues calls: every node once, sorted by Before. */
  lemma {:induction false} PreorderIsInOrder(a: Applier)
    ensures InOrder(Preorder(a))
    ensures forall p :: p in Preorder(a) <==> NodeAt(a, p).Some?
    decreases a, |a.group| + 1
  {
    PreorderFromInOrder(a, 0);
    var members := PreorderFrom(a.group, 0);
    forall p
      ensures p in Preorder(a) <==> NodeAt(a, p).Some?
    {
      if p == [] { assert Preorder(a)[0] == p; } else { assert p in Preorder(a) <==> p in members; }
    }
  }

  lemma {:induction false} PreorderFromInOrder(a: Applier, i: nat)
    requires i <= |a.group|
    ensures InOrder(PreorderFrom(a.group, i))
    ensures forall p :: p in PreorderFrom(a.group, i) <==> p != [] && i <= p[0] && NodeAt(a, p).Some?
    decreases a, |a.group| - i
  {
    if i < |a.group| {
      var sub, rest := Preorder(a.group[i]), PreorderFrom(a.group, i + 1);
      PreorderIsInOrder(a.group[i]);
      PreorderFromInOrder(a, i + 1);
      assert forall k :: 0 <= k < |rest| ==> rest[k] in rest;
      PathsJoin(i, sub, rest);
      forall p
        ensures p in PreorderFrom(a.group, i) <==> p != [] && i <= p[0] && NodeAt(a, p).Some?
      {
        InJoin(i, sub, rest, p);
      }
    }
  }

  lemma InJoin(i: nat, sub: seq<Path>, rest: seq<Path>, p: Path)
    ensures p in PrefixedPaths(i, sub) + rest <==> (p != [] && p[0] == i && p[1..] in sub) || p in rest
  {
    var here := PrefixedPaths(i, sub);
    if p in here {
      var k :| 0 <= k < |here| && here[k] == p;
      assert p[1..] == sub[k];
    }
    if p != [] && p[0] == i && p[1..] in sub {
      var k :| 0 <= k < |sub| && sub[k] == p[1..];
      assert here[k] == p;
    }
  }

  lemma PathsJoin(i: nat, sub: seq<Path>, rest: seq<Path>)
    requires InOrder(sub) && InOrder(rest) && forall k :: 0 <= k < |rest| ==> rest[k] != [] && i < rest[k][0]
    ensures InOrder(PrefixedPaths(i, sub) + rest)
  {
    var ps := PrefixedPaths(i, sub) + rest;
    forall k, l | 0 <= k < l < |ps|
      ensures Before(ps[k], ps[l])
    {
      if l < |sub| {
        assert Before(sub[k], sub[l]) && ps[k][1..] == sub[k] && ps[l][1..] == sub[l];
      } else if k >= |sub| {
        assert Before(rest[k - |sub|], rest[l - |sub|]);
      }
    }
  }

  // ---- the reconciler's callback ----

  /** SetNamespace; on metadata that is no object it changes nothing. */
  function WithNamespace(o: Object, namespace: string): Object {
    if "metadata" !in o then o["metadata" := JObj(map["namespace" := JStr(namespace)])]
    else match o["metadata"]
         case JObj(m) => o["metadata" := JObj(m["namespace" := JStr(namespace)])]
         case _ => o
  }

  /** defaultNamespaceIfNamespaced on every node that has a resource. */
  function DefaultNamespace(scope: Gvk -> Result<bool, string>, namespace: string, a: Applier): Result<Option<Object>, string> {
    if a.resource.None? then Ok(None)
    else
      var o := a.resource.value;
      match scope(GvkOf(o))
      case Err(e) => Err(e)
      case Ok(namespaced) =>
        Ok(Some(if namespaced && MetaField(o, "namespace") == "" then WithNamespace(o, namespace) else o))
  }

  /** Without metadata, or with metadata that is an object, a namespace can be set. */
  predicate HasRoomForNamespace(o: Object) { "metadata" !in o || o["metadata"].JObj? }

  /**
   Defaulting fails exactly if the scope of the kind cannot be told. It gives namespaced objects
   without a namespace the ManagedResource's and touches nothing else, in no other object.
   */
  lemma DefaultNamespaceMeaning(scope: Gvk -> Result<bool, string>, namespace: string, a: Applier)
    ensures var r := DefaultNamespace(scope, namespace, a);
            && (r.Err? <==> a.resource.Some? && scope(GvkOf(a.resource.value)).Err?)
            && (r.Ok? ==> (r.value.Some? <==> a.resource.Some?))
            && (r.Ok? && a.resource.Some? ==>
                  var o, p := a.resource.value, r.value.value;
                  var namespaced := scope(GvkOf(o)) == Ok(true);
                  && (p != o ==> namespaced && MetaField(o, "namespace") == "" && MetaField(p, "namespace") == namespace)
                  && (namespaced && MetaField(o, "namespace") == "" && HasRoomForNamespace(o) ==> MetaField(p, "namespace") == namespace)
                  && GvkOf(p) == GvkOf(o) && MetaField(p, "name") == MetaField(o, "name")
                  && (forall field :: field != "namespace" ==> Nested(p, "metadata", field) == Nested(o, "metadata", field))
                  && forall key :: key != "metadata" ==> (key in p <==> key in o) && (key in o ==> p[key] == o[key]))
  {
    if a.resource.Some? {
      var o := a.resource.value;
      var p := WithNamespace(o, namespace);
      assert StringField(p, "apiVersion") == StringField(o, "apiVersion") && StringField(p, "kind") == StringField(o, "kind");
      assert GvkOf(p) == GvkOf(o);
      hide GvkOf;
    }
  }

  lemma IdentityWithNamespace(gvk: Gvk, name: string, namespace: string)
    requires namespace != ""
    ensures WithNamespace(IdentityObject(gvk, "", name), namespace) == IdentityObject(gvk, namespace, name)
  {
    var o := IdentityObject(gvk, "", name);
    assert MetaOf(namespace, name) == MetaOf("", name)["namespace" := JStr(namespace)];
    if name != "" {
      assert "name" in MetaOf("", name);
      assert o["metadata"] == JObj(MetaOf("", name));
    } else {
      assert MetaOf("", name) == map[];
      assert "metadata" !in o;
    }
    assert "namespace" in MetaOf(namespace, name);
  }

  /** Walking with that callback keeps a sound tree sound, so what is proved of Apply holds afterwards. */
  lemma {:induction false} DefaultingKeepsSound(a: Applier, scope: Gvk -> Result<bool, string>, namespace: string)
    requires Sound(a) && namespace != ""
    requires Walked(a, x => DefaultNamespace(scope, namespace, x)).1.Ok?
    ensures Sound(Walked(a, x => DefaultNamespace(scope, namespace, x)).1.value)
    decreases a, |a.group| + 1
  {
    MembersKeepSound(a, 0, scope, namespace);
    if a.kind.DeleteKind? {
      var o := a.resource.value;
      StripKeepsIdentity(o);
      if MetaField(o, "namespace") == "" {
        IdentityWithNamespace(GvkOf(o), MetaField(o, "name"), namespace);
        var o' := IdentityObject(GvkOf(o), namespace, MetaField(o, "name"));
        IdentityFields(GvkOf(o), namespace, MetaField(o, "name"));
        GroupVersionRoundTrip(o);
        assert Strip(o') == o';
      }
    }
  }

  lemma {:induction false} MembersKeepSound(a: Applier, i: nat, scope: Gvk -> Result<bool, string>, namespace: string)
    requires Sound(a) && namespace != "" && i <= |a.group|
    requires WalkedFrom(a.group, i, x => DefaultNamespace(scope, namespace, x)).1.Ok?
    ensures var bs := WalkedFrom(a.group, i, x => DefaultNamespace(scope, namespace, x)).1.value;
            |bs| == |a.group| - i && forall k :: 0 <= k < |bs| ==> Sound(bs[k])
    decreases a, |a.group| - i
  {
    if i < |a.group| {
      assert Sound(a.group[i]);
      DefaultingKeepsSound(a.group[i], scope, namespace);
      MembersKeepSound(a, i + 1, scope, namespace);
    }
  }

  // ---- parse, walk, apply ----

  datatype ReconcileError = TemplateReturnError(cause: ParseError) | WalkError(reason: string) | ApplyErrors(errors: seq<ApplyError>)

  /** The tokens are one parsable value with nothing after it. */
  predicate IsDocument(d: Defaults, ts: seq<Token>) {
    ParseValue(d, ts, 0, None).Ok? && ParseValue(d, ts, 0, None).value.1 == |ts|
  }

  /**
   The last part of reconcile. Nothing is sent to the cluster unless the whole document parses and
   every node passes the walk, and success means that every leaf's call was issued and succeeded.
   */
  method ParseWalkApply(dec: Decoder, d: Defaults, scope: Gvk -> Result<bool, string>, namespace: string, cli: Client)
    returns (r: Option<ReconcileError>)
    requires dec.pos == 0 && cli.log == [] && namespace != ""
    modifies dec, cli
    ensures !IsDocument(d, dec.tokens) ==> r.Some? && r.value.TemplateReturnError? && cli.log == []
    ensures IsDocument(d, dec.tokens) ==>
              var tree := ParseValue(d, dec.tokens, 0, None).value.0;
              match Walked(tree, x => DefaultNamespace(scope, namespace, x)).1
              case Err(e) => r == Some(WalkError(e)) && cli.log == []
              case Ok(walked) =>
                var (trace, errors) := Exec(walked, cli.respond, 0);
                && cli.log == Log(trace)
                && r == (if errors == [] then None else Some(ApplyErrors(errors)))
                && (r == None <==>
                      (forall p :: LeafAt(walked, p) ==> Issued(trace, p)) &&
                      (forall k :: 0 <= k < |trace| ==> !trace[k].Failed()))
  {
    var tree := UnmarshalJSONFrom(dec, d, None);
    if tree.Err? { return Some(TemplateReturnError(tree.error)); }
    if dec.pos != |dec.tokens| { return Some(TemplateReturnError(UnexpectedToken)); }
    ParsedTreesAreSound(d, dec.tokens);
    hide ParseValue, Sound, Exec, Walked;
    var _, walked := Walk(tree.value, x => DefaultNamespace(scope, namespace, x));
    if walked.Err? { return Some(WalkError(walked.error)); }
    DefaultingKeepsSound(tree.value, scope, namespace);
    var errors := Apply(walked.value, cli);
    NilMeansAllSucceeded(walked.value, cli.respond, 0);
    r := if errors == [] then None else Some(ApplyErrors(errors));
  }
}
