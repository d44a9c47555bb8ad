/**
 The part of a ManagedResource that decides which caches and watches an instance needs, and the text
 that is hashed to notice that it changed: the JSON of the triggers, the JSON of the contexts, each
 with a newline, and the service account name.

 Fields tagged omitempty are left out when they would be written as an empty string, array or object.
 An interval is kept as the canonical text its duration is written as; the labels of a selector are
 kept in the sorted order in which they are written.
 */
module Fingerprint {
  import opened Wrappers
  import opened SelfDelimiting
  import opened Text
  import opened Unstructured

  datatype Requirement = Requirement(key: string, operator: string, values: seq<string>)

  datatype LabelSelector = LabelSelector(matchLabels: seq<(string, string)>, matchExpressions: seq<Requirement>)

  datatype Resource = Resource(
    apiVersion: string,
    kind: string,
    name: string,
    namespace: Option<string>,
    labelSelector: Option<LabelSelector>,
    matchNames: seq<string>,
    ignoreNames: seq<string>,
    stripManagedFields: Option<bool>)

  datatype Trigger = Trigger(name: string, interval: string, watchResource: Resource, watchContextResource: string)

  datatype Context = Context(name: string, resource: Resource)

  datatype Spec = Spec(triggers: seq<Trigger>, contexts: seq<Context>, serviceAccount: string)

  /** The kind a definition asks for; everything after the first slash is the version. */
  function KindOf(r: Resource): Gvk {
    var group := Before(r.apiVersion, '/');
    if '/' in r.apiVersion then Gvk(group, r.apiVersion[|group| + 1..], r.kind) else Gvk("", r.apiVersion, r.kind)
  }

  // ---- what is written ----

  predicate Empty(d: Doc) { d == Text("") || d == List([]) || d == Record([]) }

  /** The members that omitempty leaves. */
  function Present(ms: seq<Member>): seq<Member> {
    if ms == [] then [] else (if Empty(ms[0].value) then [] else [ms[0]]) + Present(ms[1..])
  }

  function Texts(ss: seq<string>): (r: seq<Doc>)
    ensures |r| == |ss| && forall i :: 0 <= i < |ss| ==> r[i] == Text(ss[i])
  {
    seq(|ss|, i requires 0 <= i < |ss| => Text(ss[i]))
  }

  function Labels(ls: seq<(string, string)>): (r: seq<Member>)
    ensures |r| == |ls| && forall i :: 0 <= i < |ls| ==> r[i] == Member(ls[i].0, Text(ls[i].1))
  {
    seq(|ls|, i requires 0 <= i < |ls| => Member(ls[i].0, Text(ls[i].1)))
  }

  function RequirementDoc(r: Requirement): Doc {
    Record([Member("key", Text(r.key)), Member("operator", Text(r.operator))] + Present([Member("values", List(Texts(r.values)))]))
  }

  function RequirementDocs(rs: seq<Requirement>): (ds: seq<Doc>)
    ensures |ds| == |rs| && forall i :: 0 <= i < |rs| ==> ds[i] == RequirementDoc(rs[i])
  {
    seq(|rs|, i requires 0 <= i < |rs| => RequirementDoc(rs[i]))
  }

  function SelectorMembers(s: LabelSelector): seq<Member> {
    [Member("matchLabels", Record(Labels(s.matchLabels))), Member("matchExpressions", List(RequirementDocs(s.matchExpressions)))]
  }

  function SelectorDoc(s: Option<LabelSelector>): Doc {
    if s.None? then Record([]) else Record(Present(SelectorMembers(s.value)))
  }

  function ResourceMembers(r: Resource): seq<Member> {
    [Member("apiVersion", Text(r.apiVersion)),
     Member("kind", Text(r.kind)),
     Member("name", Text(r.name)),
     Member("namespace", Text(r.namespace.GetOr(""))),
     Member("labelSelector", SelectorDoc(r.labelSelector)),
     Member("matchNames", List(Texts(r.matchNames))),
     Member("ignoreNames", List(Texts(r.ignoreNames))),
     Member("stripManagedFields", if r.stripManagedFields.Some? then Flag(r.stripManagedFields.value) else Text(""))]
  }

  function ResourceDoc(r: Resource): Doc { Record(Present(ResourceMembers(r))) }

  function TriggerMembers(t: Trigger): seq<Member> {
    [Member("watchResource", ResourceDoc(t.watchResource)),
     Member("watchContextResource", Record(Present([Member("name", Text(t.watchContextResource))])))]
  }

  function TriggerDoc(t: Trigger): Doc {
    Record([Member("name", Text(t.name)), Member("interval", Text(t.interval))] + Present(TriggerMembers(t)))
  }

  function ContextDoc(c: Context): Doc {
    Record([Member("name", Text(c.name))] + Present([Member("resource", ResourceDoc(c.resource))]))
  }

  function TriggerDocs(ts: seq<Trigger>): (ds: seq<Doc>)
    ensures |ds| == |ts| && forall i :: 0 <= i < |ts| ==> ds[i] == TriggerDoc(ts[i])
  {
    seq(|ts|, i requires 0 <= i < |ts| => TriggerDoc(ts[i]))
  }

  function ContextDocs(cs: seq<Context>): (ds: seq<Doc>)
    ensures |ds| == |cs| && forall i :: 0 <= i < |cs| ==> ds[i] == ContextDoc(cs[i])
  {
    seq(|cs|, i requires 0 <= i < |cs| => ContextDoc(cs[i]))
  }

  /** What configHashForManagedResource feeds to the hash. */
  function Preimage(s: Spec): string {
    Print(List(TriggerDocs(s.triggers))) + (['\n'] + (Print(List(ContextDocs(s.contexts))) + (['\n'] + s.serviceAccount)))
  }

  // ---- what omitempty erases ----

  function NormalResource(r: Resource): Resource {
    r.(namespace := if r.namespace == Some("") then None else r.namespace,
       labelSelector := if r.labelSelector == Some(LabelSelector([], [])) then None else r.labelSelector)
  }

  function NormalTrigger(t: Trigger): Trigger { t.(watchResource := NormalResource(t.watchResource)) }

  function NormalContext(c: Context): Context { c.(resource := NormalResource(c.resource)) }

  /** Equal up to what omitempty erases: an empty namespace and an empty label selector count as absent. */
  predicate SameTriggers(a: seq<Trigger>, b: seq<Trigger>) {
    |a| == |b| && forall i :: 0 <= i < |a| ==> NormalTrigger(a[i]) == NormalTrigger(b[i])
  }

  predicate SameContexts(a: seq<Context>, b: seq<Context>) {
    |a| == |b| && forall i :: 0 <= i < |a| ==> NormalContext(a[i]) == NormalContext(b[i])
  }

  predicate SameConfig(a: Spec, b: Spec) {
    SameTriggers(a.triggers, b.triggers) && SameContexts(a.contexts, b.contexts) && a.serviceAccount == b.serviceAccount
  }

  // ---- unique decodability ----

  predicate SameNames(f: seq<Member>, g: seq<Member>) {
    |f| == |g| && forall i :: 0 <= i < |f| ==> f[i].name == g[i].name
  }

  predicate DistinctMembers(f: seq<Member>) { forall i, j :: 0 <= i < j < |f| ==> f[i].name != f[j].name }

  lemma {:induction false} PresentNames(f: seq<Member>, name: string)
    requires forall i :: 0 <= i < |f| ==> f[i].name != name
    ensures forall i :: 0 <= i < |Present(f)| ==> Present(f)[i].name != name
  {
    if f != [] { PresentNames(f[1..], name); }
  }

  /** Whether a member was left out can be read off what is present. */
  lemma PresentHead(f: seq<Member>, g: seq<Member>)
    requires f != [] && SameNames(f, g) && DistinctMembers(f) && Present(f) == Present(g) && Empty(f[0].value)
    ensures Empty(g[0].value)
  {
    hide Empty;
    assert !Empty(g[0].value) ==> Present(g)[0] == g[0];
    assert Present(f) == Present(f[1..]);
    PresentNames(f[1..], g[0].name);
  }

  /** Members with fixed, distinct names can be told from what omitempty leaves, up to emptiness. */
  lemma {:induction false} PresentIsInjective(f: seq<Member>, g: seq<Member>)
    requires SameNames(f, g) && DistinctMembers(f) && Present(f) == Present(g)
    ensures forall i :: 0 <= i < |f| ==> f[i] == g[i] || (Empty(f[i].value) && Empty(g[i].value))
  {
    if f != [] {
      hide Empty;
      if Empty(f[0].value) { PresentHead(f, g); }
      if Empty(g[0].value) { PresentHead(g, f); }
      assert Empty(f[0].value) <==> Empty(g[0].value);
      var k := if Empty(f[0].value) then 0 else 1;
      assert Present(f[1..]) == Present(f)[k..] && Present(g[1..]) == Present(g)[k..];
      assert f[0] == g[0] || Empty(f[0].value) by {
        if k == 1 { assert Present(f)[0] == f[0] && Present(g)[0] == g[0]; }
      }
      hide Present;
      PresentIsInjective(f[1..], g[1..]);
      assert forall i :: 1 <= i < |f| ==> f[i] == f[1..][i - 1] && g[i] == g[1..][i - 1];
    }
  }

  /** One member that is written as a list or an object is determined by what is present. */
  lemma OnePresent(name: string, a: Doc, b: Doc)
    requires Present([Member(name, a)]) == Present([Member(name, b)])
    requires (a.List? && b.List?) || (a.Record? && b.Record?) || (a.Text? && b.Text?)
    ensures a == b
  {
    var f, g := [Member(name, a)], [Member(name, b)];
    PresentIsInjective(f, g);
    assert f[0] == g[0] || (Empty(f[0].value) && Empty(g[0].value));
  }

  lemma TextsAreInjective(a: seq<string>, b: seq<string>)
    requires Texts(a) == Texts(b)
    ensures a == b
  {
    forall i | 0 <= i < |a|
      ensures a[i] == b[i]
    {
      assert Texts(a)[i] == Texts(b)[i];
    }
  }

  lemma RequirementIsInjective(a: Requirement, b: Requirement)
    requires RequirementDoc(a) == RequirementDoc(b)
    ensures a == b
  {
    var f, g := RequirementDoc(a).members, RequirementDoc(b).members;
    var p, q := List(Texts(a.values)), List(Texts(b.values));
    assert f[0] == g[0] && f[1] == g[1];
    assert f[2..] == Present([Member("values", p)]) && g[2..] == Present([Member("values", q)]);
    OnePresent("values", p, q);
    TextsAreInjective(a.values, b.values);
  }

  lemma SelectorIsInjective(a: LabelSelector, b: LabelSelector)
    requires Present(SelectorMembers(a)) == Present(SelectorMembers(b))
    ensures a == b
  {
    var f, g := SelectorMembers(a), SelectorMembers(b);
    assert f[0].name != f[1].name;
    PresentIsInjective(f, g);
    assert f[0].value == g[0].value && f[1].value == g[1].value;
    forall i | 0 <= i < |a.matchLabels|
      ensures a.matchLabels[i] == b.matchLabels[i]
    {
      assert Labels(a.matchLabels)[i] == Labels(b.matchLabels)[i];
    }
    forall i | 0 <= i < |a.matchExpressions|
      ensures a.matchExpressions[i] == b.matchExpressions[i]
    {
      assert RequirementDocs(a.matchExpressions)[i] == RequirementDocs(b.matchExpressions)[i];
      RequirementIsInjective(a.matchExpressions[i], b.matchExpressions[i]);
    }
  }

  lemma SelectorDocIsInjective(a: Option<LabelSelector>, b: Option<LabelSelector>)
    ensures SelectorDoc(a) == SelectorDoc(b) <==>
            (if a == Some(LabelSelector([], [])) then None else a) == (if b == Some(LabelSelector([], [])) then None else b)
  {
    var none := LabelSelector([], []);
    assert Present(SelectorMembers(none)) == [];
    if a.Some? && Present(SelectorMembers(a.value)) == [] { SelectorIsInjective(a.value, none); }
    if b.Some? && Present(SelectorMembers(b.value)) == [] { SelectorIsInjective(b.value, none); }
    if a.Some? && b.Some? && SelectorDoc(a) == SelectorDoc(b) { SelectorIsInjective(a.value, b.value); }
  }

  lemma ResourceNamesDiffer(r: Resource)
    ensures DistinctMembers(ResourceMembers(r))
  {
    var names := ["apiVersion", "kind", "name", "namespace", "labelSelector", "matchNames", "ignoreNames", "stripManagedFields"];
    assert |names[0]| == 10 && |names[1]| == 4 && |names[2]| == 4 && |names[3]| == 9 && |names[4]| == 13;
    assert |names[5]| == 10 && |names[6]| == 11 && |names[7]| == 18;
    assert names[0][0] != names[5][0] && names[1][0] != names[2][0];
    assert forall i, j :: 0 <= i < j < 8 ==> names[i] != names[j];
    assert forall i :: 0 <= i < 8 ==> ResourceMembers(r)[i].name == names[i];
  }

  lemma ResourceIsDecodable(a: Resource, b: Resource)
    ensures ResourceDoc(a) == ResourceDoc(b) <==> NormalResource(a) == NormalResource(b)
  {
    SelectorDocIsInjective(a.labelSelector, b.labelSelector);
    if NormalResource(a) == NormalResource(b) {
      hide SelectorDoc, Present;
      assert ResourceMembers(a) == ResourceMembers(b);
    }
    if ResourceDoc(a) == ResourceDoc(b) {
      ResourceMembersAreDecodable(a, b);
    }
  }

  lemma ResourceMembersAreDecodable(a: Resource, b: Resource)
    requires ResourceDoc(a) == ResourceDoc(b)
    ensures NormalResource(a) == NormalResource(b)
  {
    ResourceMembersAgree(a, b);
    TextMembersDecode(a, b);
    ListMembersDecode(a, b);
    SelectorMembersDecode(a, b);
    hide ResourceDoc, Agree;
  }

  /** Equal, or both left out. */
  predicate Agree(m: Member, n: Member) { m == n || (Empty(m.value) && Empty(n.value)) }

  ghost predicate MembersAgree(a: Resource, b: Resource) {
    forall i :: 0 <= i < 8 ==> Agree(ResourceMembers(a)[i], ResourceMembers(b)[i])
  }

  lemma ResourceMembersAgree(a: Resource, b: Resource)
    requires ResourceDoc(a) == ResourceDoc(b)
    ensures MembersAgree(a, b)
  {
    ResourceNamesDiffer(a);
    hide Present, Empty, SelectorDoc;
    PresentIsInjective(ResourceMembers(a), ResourceMembers(b));
  }

  lemma TextMembersDecode(a: Resource, b: Resource)
    requires MembersAgree(a, b)
    ensures a.apiVersion == b.apiVersion && a.kind == b.kind && a.name == b.name
    ensures a.namespace.GetOr("") == b.namespace.GetOr("") && a.stripManagedFields == b.stripManagedFields
  {
    hide SelectorDoc;
    var f, g := ResourceMembers(a), ResourceMembers(b);
    assert Agree(f[0], g[0]) && Agree(f[1], g[1]) && Agree(f[2], g[2]) && Agree(f[3], g[3]) && Agree(f[7], g[7]);
    hide MembersAgree;
  }

  lemma ListMembersDecode(a: Resource, b: Resource)
    requires MembersAgree(a, b)
    ensures a.matchNames == b.matchNames && a.ignoreNames == b.ignoreNames
  {
    hide SelectorDoc;
    assert Agree(ResourceMembers(a)[5], ResourceMembers(b)[5]) && Agree(ResourceMembers(a)[6], ResourceMembers(b)[6]);
    TextsAreInjective(a.matchNames, b.matchNames);
    TextsAreInjective(a.ignoreNames, b.ignoreNames);
  }

  lemma SelectorMembersDecode(a: Resource, b: Resource)
    requires MembersAgree(a, b)
    ensures NormalResource(a).labelSelector == NormalResource(b).labelSelector
  {
    assert Agree(ResourceMembers(a)[4], ResourceMembers(b)[4]);
    SelectorDocIsRecord(a.labelSelector);
    SelectorDocIsRecord(b.labelSelector);
    hide SelectorDoc, MembersAgree;
    SelectorDocIsInjective(a.labelSelector, b.labelSelector);
  }

  lemma SelectorDocIsRecord(s: Option<LabelSelector>)
    ensures SelectorDoc(s).Record?
  {
  }

  lemma TriggerIsDecodable(a: Trigger, b: Trigger)
    ensures TriggerDoc(a) == TriggerDoc(b) <==> NormalTrigger(a) == NormalTrigger(b)
  {
    ResourceIsDecodable(a.watchResource, b.watchResource);
    var f, g := TriggerMembers(a), TriggerMembers(b);
    hide NormalResource;
    if TriggerDoc(a) == TriggerDoc(b) {
      var x, y := TriggerDoc(a).members, TriggerDoc(b).members;
      assert x[0] == y[0] && x[1] == y[1] && x[2..] == Present(f) && y[2..] == Present(g);
      assert |f[0].name| == 13 && |f[1].name| == 20;
      PresentIsInjective(f, g);
      assert forall i :: 0 <= i < 2 ==> f[i].value.Record? && g[i].value.Record?;
      assert f[0].value == g[0].value && f[1].value == g[1].value;
      OnePresent("name", Text(a.watchContextResource), Text(b.watchContextResource));
    }
  }

  lemma ContextIsDecodable(a: Context, b: Context)
    ensures ContextDoc(a) == ContextDoc(b) <==> NormalContext(a) == NormalContext(b)
  {
    ResourceIsDecodable(a.resource, b.resource);
    hide NormalResource;
    if ContextDoc(a) == ContextDoc(b) {
      var f, g := ResourceDoc(a.resource), ResourceDoc(b.resource);
      var x, y := ContextDoc(a).members, ContextDoc(b).members;
      assert x[0] == y[0] && x[1..] == Present([Member("resource", f)]) && y[1..] == Present([Member("resource", g)]);
      OnePresent("resource", f, g);
    }
  }

  /**
   The fingerprint's preimage is uniquely decodable: two configurations are hashed from the same text
   if and only if they are the same up to what omitempty erases.
   */
  lemma PreimageIsDecodable(a: Spec, b: Spec)
    ensures Preimage(a) == Preimage(b) <==> SameConfig(a, b)
  {
    var ta, tb := List(TriggerDocs(a.triggers)), List(TriggerDocs(b.triggers));
    var ca, cb := List(ContextDocs(a.contexts)), List(ContextDocs(b.contexts));
    hide Print, TriggerDoc, ContextDoc, NormalTrigger, NormalContext;
    forall i | 0 <= i < |a.triggers| && i < |b.triggers|
      ensures TriggerDocs(a.triggers)[i] == TriggerDocs(b.triggers)[i] <==> NormalTrigger(a.triggers[i]) == NormalTrigger(b.triggers[i])
    {
      TriggerIsDecodable(a.triggers[i], b.triggers[i]);
    }
    forall i | 0 <= i < |a.contexts| && i < |b.contexts|
      ensures ContextDocs(a.contexts)[i] == ContextDocs(b.contexts)[i] <==> NormalContext(a.contexts[i]) == NormalContext(b.contexts[i])
    {
      ContextIsDecodable(a.contexts[i], b.contexts[i]);
    }
    assert ta == tb <==> SameTriggers(a.triggers, b.triggers);
    assert ca == cb <==> SameContexts(a.contexts, b.contexts);
    if Preimage(a) == Preimage(b) {
      var ra, rb := Print(ca) + (['\n'] + a.serviceAccount), Print(cb) + (['\n'] + b.serviceAccount);
      PrintIsPrefixFree(ta, tb, ['\n'] + ra, ['\n'] + rb);
      assert ra == (['\n'] + ra)[1..] && rb == (['\n'] + rb)[1..];
      PrintIsPrefixFree(ca, cb, ['\n'] + a.serviceAccount, ['\n'] + b.serviceAccount);
      assert a.serviceAccount == (['\n'] + a.serviceAccount)[1..] && b.serviceAccount == (['\n'] + b.serviceAccount)[1..];
    }
  }

  /** Field by field: everything is the same, but an empty namespace and an empty label selector pass for none. */
  predicate AlikeResources(a: Resource, b: Resource) {
    && a.apiVersion == b.apiVersion && a.kind == b.kind && a.name == b.name
    && a.namespace.GetOr("") == b.namespace.GetOr("")
    && a.labelSelector.GetOr(LabelSelector([], [])) == b.labelSelector.GetOr(LabelSelector([], []))
    && a.matchNames == b.matchNames && a.ignoreNames == b.ignoreNames && a.stripManagedFields == b.stripManagedFields
  }

  predicate AlikeTriggers(a: Trigger, b: Trigger) {
    && a.name == b.name && a.interval == b.interval && a.watchContextResource == b.watchContextResource
    && AlikeResources(a.watchResource, b.watchResource)
  }

  predicate AlikeContexts(a: Context, b: Context) { a.name == b.name && AlikeResources(a.resource, b.resource) }

  /** The same said field by field: nothing else of triggers, contexts and service account can change unnoticed. */
  lemma ChangesAreNoticed(a: Spec, b: Spec)
    ensures Preimage(a) == Preimage(b) <==>
      && a.serviceAccount == b.serviceAccount
      && |a.triggers| == |b.triggers| && (forall i :: 0 <= i < |a.triggers| ==> AlikeTriggers(a.triggers[i], b.triggers[i]))
      && |a.contexts| == |b.contexts| && (forall i :: 0 <= i < |a.contexts| ==> AlikeContexts(a.contexts[i], b.contexts[i]))
  {
    PreimageIsDecodable(a, b);
    hide Preimage, AlikeTriggers, AlikeContexts, NormalTrigger, NormalContext;
    forall i | 0 <= i < |a.triggers| && i < |b.triggers|
      ensures AlikeTriggers(a.triggers[i], b.triggers[i]) <==> NormalTrigger(a.triggers[i]) == NormalTrigger(b.triggers[i])
    {
      TriggersAlike(a.triggers[i], b.triggers[i]);
    }
    forall i | 0 <= i < |a.contexts| && i < |b.contexts|
      ensures AlikeContexts(a.contexts[i], b.contexts[i]) <==> NormalContext(a.contexts[i]) == NormalContext(b.contexts[i])
    {
      ContextsAlike(a.contexts[i], b.contexts[i]);
    }
  }

  lemma ResourcesAlike(a: Resource, b: Resource)
    ensures AlikeResources(a, b) <==> NormalResource(a) == NormalResource(b)
  {
    var x, y := NormalResource(a), NormalResource(b);
    assert x.namespace == y.namespace <==> a.namespace.GetOr("") == b.namespace.GetOr("");
    assert x.labelSelector == y.labelSelector <==>
      a.labelSelector.GetOr(LabelSelector([], [])) == b.labelSelector.GetOr(LabelSelector([], []));
  }

  lemma TriggersAlike(a: Trigger, b: Trigger)
    ensures AlikeTriggers(a, b) <==> NormalTrigger(a) == NormalTrigger(b)
  {
    ResourcesAlike(a.watchResource, b.watchResource);
    hide AlikeResources, NormalResource;
  }

  lemma ContextsAlike(a: Context, b: Context)
    ensures AlikeContexts(a, b) <==> NormalContext(a) == NormalContext(b)
  {
    ResourcesAlike(a.resource, b.resource);
    hide AlikeResources, NormalResource;
  }

  /** Group and version are the two parts of the API version around its first slash. */
  lemma KindIsTheApiVersion(r: Resource)
    ensures var k := KindOf(r);
            && k.kind == r.kind && '/' !in k.group
            && r.apiVersion == (if '/' in r.apiVersion then k.group + "/" + k.version else k.version)
            && ('/' !in r.apiVersion ==> k.group == "")
  {
    var group := Before(r.apiVersion, '/');
    if '/' in r.apiVersion {
      assert r.apiVersion == r.apiVersion[..|group|] + [r.apiVersion[|group|]] + r.apiVersion[|group| + 1..];
    }
  }

  // ---- what is lost ----

  /** The selection a resource definition stands for: an absent namespace is the ManagedResource's own. */
  datatype Selection = Selection(
    apiVersion: string, kind: string, name: string, namespace: string,
    labels: LabelSelector, matchNames: seq<string>, ignoreNames: seq<string>, stripManagedFields: bool)

  function SelectionOf(r: Resource, ownNamespace: string): Selection {
    Selection(r.apiVersion, r.kind, r.name, r.namespace.GetOr(ownNamespace),
              r.labelSelector.GetOr(LabelSelector([], [])), r.matchNames, r.ignoreNames, r.stripManagedFields.GetOr(true))
  }

  /**
   The one collapse that changes meaning: of two resource definitions with the same fingerprint text
   one may select all namespaces with an explicit empty namespace and the other only its own. In all
   other cases they select the same.
   */
  lemma OnlyEmptyNamespaceIsLost(a: Resource, b: Resource, ownNamespace: string)
    requires ResourceDoc(a) == ResourceDoc(b) && ownNamespace != ""
    ensures SelectionOf(a, ownNamespace) == SelectionOf(b, ownNamespace) <==> a.namespace == b.namespace
    ensures a.namespace != b.namespace ==> {a.namespace, b.namespace} == {None, Some("")}
  {
    ResourceIsDecodable(a, b);
    assert NormalResource(a).namespace == NormalResource(b).namespace;
    assert NormalResource(a).labelSelector == NormalResource(b).labelSelector;
  }

  /** Such a pair exists for every ManagedResource namespace. */
  lemma EmptyNamespaceCollides(r: Resource, ownNamespace: string)
    requires ownNamespace != ""
    ensures var a, b := r.(namespace := None), r.(namespace := Some(""));
            ResourceDoc(a) == ResourceDoc(b) && SelectionOf(a, ownNamespace) != SelectionOf(b, ownNamespace)
  {
    ResourceIsDecodable(r.(namespace := None), r.(namespace := Some("")));
  }
}
