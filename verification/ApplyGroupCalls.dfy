/**
 From a template to the cluster: which calls the objects of a template become, after it was printed, parsed,
 walked to default namespaces, and executed.
 */
module ApplyGroupCalls {
  import opened Wrappers
  import opened Unstructured
  import opened ApplyGroup
  import opened ApplyGroupGrammar
  import opened ApplyGroupExecution
  import opened ApplyGroupWalk
  import opened ApplyGroupPrinter

  /** The part of a template at a path, or None. */
  function TemplateAt(t: Template, p: Path): Option<Template>
    decreases |p|
  {
    if p == [] then Some(t)
    else if t.Group? && p[0] < |t.members| then TemplateAt(t.members[p[0]], p[1..])
    else None
  }

  /** The policy of the group a part stands in, or what the whole was given. */
  function PolicyAbove(t: Template, p: Path, above: string): string
    decreases |p|
  {
    if p != [] && t.Group? && p[0] < |t.members| then PolicyAbove(t.members[p[0]], p[1..], t.errorPolicy.GetOr("")) else above
  }

  /** A tree that recovers a template does so node by node. */
  lemma {:induction false} RecoversAt(d: Defaults, t: Template, a: Applier, above: string, p: Path)
    requires Recovers(d, t, a, above)
    ensures TemplateAt(t, p).Some? <==> NodeAt(a, p).Some?
    ensures NodeAt(a, p).Some? ==> Recovers(d, TemplateAt(t, p).value, NodeAt(a, p).value, PolicyAbove(t, p, above))
    decreases |p|
  {
    if p != [] && t.Group? && p[0] < |t.members| {
      RecoversAt(d, t.members[p[0]], a.group[p[0]], t.errorPolicy.GetOr(""), p[1..]);
    }
  }

  // ---- what one object becomes ----

  /** A namespace is missing where there should be one. */
  predicate NamespaceIsDue(scope: Gvk -> Result<bool, string>, o: Object) {
    scope(GvkOf(o)) == Ok(true) && MetaField(o, "namespace") == ""
  }

  /** The object as it is applied: itself, or itself in the given namespace if one is due. */
  ghost predicate Defaulted(scope: Gvk -> Result<bool, string>, namespace: string, o: Object, p: Object) {
    && GvkOf(p) == GvkOf(o)
    && (!NamespaceIsDue(scope, o) ==> p == o)
    && (NamespaceIsDue(scope, o) && HasRoomForNamespace(o) ==> MetaField(p, "namespace") == namespace)
    && (forall field :: field != "namespace" ==> Nested(p, "metadata", field) == Nested(o, "metadata", field))
    && (forall key :: key != "metadata" ==> (key in p <==> key in o) && (key in o ==> p[key] == o[key]))
  }

  /** An apply with the options a template part gives, each with its own precedence. */
  predicate AppliesWith(d: Defaults, x: ApplyOptions, call: Call) {
    && call.ApplyCall? && call.options.Some?
    && call.subResource == x.subResource.GetOr("")
    && call.options.value.force == x.force.GetOr(d.force)
    && var manager, suffix := x.fieldManager.GetOr(d.fieldManager), x.fieldManagerSuffix.GetOr("");
       && (manager != "" ==> call.options.value.fieldManager == manager + suffix)
       && (manager == "" ==> call.options.value.fieldManager == d.fieldManagerFallback + suffix)
  }

  /** A deletion of this object and of nothing but its identity, with these options. */
  predicate Deletes(scope: Gvk -> Result<bool, string>, namespace: string, o: Object, x: DeleteOptions, call: Call) {
    && call.DeleteCall? && call.deleteOptions == Some(x)
    && GvkOf(call.target) == GvkOf(o) && MetaField(call.target, "name") == MetaField(o, "name")
    && MetaField(call.target, "namespace") == (if NamespaceIsDue(scope, o) then namespace else MetaField(o, "namespace"))
    && call.target.Keys <= {"apiVersion", "kind", "metadata"}
  }

  predicate IsObject(t: Template) { t.Plain? || t.WithOptions? || t.Marked? }

  /** The call that an object of a template asks for. */
  ghost predicate CallFor(d: Defaults, scope: Gvk -> Result<bool, string>, namespace: string, t: Template, call: Call) {
    match t
    case Plain(o) => AppliesWith(d, NO_OPTIONS, call) && Defaulted(scope, namespace, o, call.resource)
    case WithOptions(o, x) => AppliesWith(d, x, call) && Defaulted(scope, namespace, o, call.resource)
    case Marked(o, x) => Deletes(scope, namespace, o, x, call)
    case _ => false
  }

  // ---- one node ----

  lemma StrippedHasRoom(o: Object)
    ensures HasRoomForNamespace(Strip(o))
  {
  }

  lemma DefaultedResource(scope: Gvk -> Result<bool, string>, namespace: string, a: Applier)
    requires a.resource.Some? && DefaultNamespace(scope, namespace, a).Ok?
    ensures var r := DefaultNamespace(scope, namespace, a).value;
            r.Some? && Defaulted(scope, namespace, a.resource.value, r.value)
  {
    DefaultNamespaceMeaning(scope, namespace, a);
    hide DefaultNamespace, GvkOf, MetaField, Nested;
  }

  /** What a recovered node carries after the walk is what its object asks for. */
  lemma NodeAsksFor(
    d: Defaults, scope: Gvk -> Result<bool, string>, namespace: string, t: Template, above: string, a: Applier, b: Applier, call: Call)
    requires IsObject(t) && Recovers(d, t, a, above) && DefaultNamespace(scope, namespace, a).Ok?
    requires SameButResource(a, b, DefaultNamespace(scope, namespace, a).value) && b.resource.Some?
    requires b.kind.ApplyKind? ==> call == ApplyCall(b.resource.value, b.applyOptions, b.subResource)
    requires b.kind.DeleteKind? ==>
               && call.DeleteCall? && call.deleteOptions == b.deleteOptions && GvkOf(call.target) == GvkOf(b.resource.value)
               && MetaField(call.target, "namespace") == MetaField(b.resource.value, "namespace")
               && MetaField(call.target, "name") == MetaField(b.resource.value, "name")
               && call.target.Keys <= {"apiVersion", "kind", "metadata"}
    ensures CallFor(d, scope, namespace, t, call)
  {
    DefaultedResource(scope, namespace, a);
    if t.Marked? {
      StripKeepsIdentity(t.o);
      StrippedHasRoom(t.o);
    }
    hide DefaultNamespace, GvkOf, Strip, HasRoomForNamespace;
  }

  // ---- the whole template ----

  /** The tree of a printed template after the walk. */
  ghost predicate WalkedTemplate(d: Defaults, scope: Gvk -> Result<bool, string>, namespace: string, t: Template, tree: Applier, walked: Applier) {
    && Good(t) && Render(t).Some?
    && ParseValue(d, Flatten(Render(t).value), 0, None) == Ok((tree, |Flatten(Render(t).value)|))
    && Walked(tree, x => DefaultNamespace(scope, namespace, x)).1 == Ok(walked)
  }

  /** The nodes of the walked tree and the parts of the template correspond, leaves to objects. */
  lemma NodesAreParts(
    d: Defaults, scope: Gvk -> Result<bool, string>, namespace: string, t: Template, tree: Applier, walked: Applier, p: Path)
    requires WalkedTemplate(d, scope, namespace, t, tree, walked)
    ensures TemplateAt(t, p).Some? <==> NodeAt(walked, p).Some?
    ensures NodeAt(walked, p).Some? ==>
              && NodeAt(tree, p).Some? && Recovers(d, TemplateAt(t, p).value, NodeAt(tree, p).value, PolicyAbove(t, p, ""))
              && DefaultNamespace(scope, namespace, NodeAt(tree, p).value).Ok?
              && SameButResource(NodeAt(tree, p).value, NodeAt(walked, p).value, DefaultNamespace(scope, namespace, NodeAt(tree, p).value).value)
    ensures LeafAt(walked, p) <==> TemplateAt(t, p).Some? && IsObject(TemplateAt(t, p).value)
  {
    PrintedTemplatesParse(d, t);
    RecoversAt(d, t, tree, "", p);
    WalkReplacesResources(tree, x => DefaultNamespace(scope, namespace, x), p);
    hide ParseValue, Render, Flatten, Walked, DefaultNamespace, NodeAt, TemplateAt, Good;
  }

  /**
   Every call that is issued is the call some object of the template asks for: the object itself, in its
   namespace, with its own options and those of the ManagedResource in their order of precedence, or the
   deletion of that object with its deletion options.
   */
  lemma CallsAreAskedFor(
    d: Defaults, scope: Gvk -> Result<bool, string>, namespace: string, t: Template, tree: Applier, walked: Applier,
    respond: nat -> Outcome, k: nat)
    requires WalkedTemplate(d, scope, namespace, t, tree, walked) && k < |Exec(walked, respond, 0).0|
    ensures var i := Exec(walked, respond, 0).0[k];
            TemplateAt(t, i.path).Some? && CallFor(d, scope, namespace, TemplateAt(t, i.path).value, i.call)
  {
    var i := Exec(walked, respond, 0).0[k];
    IssuesAreLeafCalls(walked, respond, 0, k);
    IssuesCarryTheirNodes(walked, respond, 0, k);
    NodesAreParts(d, scope, namespace, t, tree, walked, i.path);
    hide WalkedTemplate, Exec, Recovers, NodeAt, TemplateAt, DefaultNamespace, GvkOf, MetaField, CallOf, Strip;
    NodeAsksFor(
      d, scope, namespace, TemplateAt(t, i.path).value, PolicyAbove(t, i.path, ""), NodeAt(tree, i.path).value, NodeAt(walked, i.path).value,
      i.call);
  }

  /** If nothing is reported, the call of every single object of the template was issued, and none failed. */
  lemma SilenceMeansAllWasDone(
    d: Defaults, scope: Gvk -> Result<bool, string>, namespace: string, t: Template, tree: Applier, walked: Applier,
    respond: nat -> Outcome, p: Path) returns (k: nat)
    requires WalkedTemplate(d, scope, namespace, t, tree, walked) && namespace != "" && Exec(walked, respond, 0).1 == []
    requires TemplateAt(t, p).Some? && IsObject(TemplateAt(t, p).value)
    ensures k < |Exec(walked, respond, 0).0|
    ensures var i := Exec(walked, respond, 0).0[k];
            i.path == p && !i.Failed() && CallFor(d, scope, namespace, TemplateAt(t, p).value, i.call)
  {
    NodesAreParts(d, scope, namespace, t, tree, walked, p);
    ParsedTreesAreSound(d, Flatten(Render(t).value));
    DefaultingKeepsSound(tree, scope, namespace);
    NilMeansAllSucceeded(walked, respond, 0);
    var trace := Exec(walked, respond, 0).0;
    k :| 0 <= k < |trace| && Paths(trace)[k] == p;
    CallsAreAskedFor(d, scope, namespace, t, tree, walked, respond, k);
  }
}
