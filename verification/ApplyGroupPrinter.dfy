/**
 The Jsonnet library functions that print apply groups, and the round trip: what they print is what
 the parser reads. A printer fails where the library's assertions fail.
 */
module ApplyGroupPrinter {
  import opened Wrappers
  import opened Unstructured
  import opened ApplyGroup
  import opened ApplyGroupGrammar
  import opened ApplyGroupInheritance

  /** The arguments of applyOptions that end up in the object; None is null. */
  datatype ApplyOptions = ApplyOptions(
    fieldManager: Option<string>,
    fieldManagerSuffix: Option<string>,
    force: Option<bool>,
    subResource: Option<string>)

  /** A template built with the library. */
  datatype Template =
    | Null
    | Plain(o: Object)
    | WithOptions(o: Object, applyOptions: ApplyOptions)
    | Marked(o: Object, deleteOptions: DeleteOptions)
    | Group(members: seq<Template>, errorPolicy: Option<string>)

  function StrField(name: string, v: Option<string>): Object {
    if v.Some? then map[name := JStr(v.value)] else map[]
  }

  /** std.prune drops the nulls. */
  function PrunedOptions(a: ApplyOptions): Object {
    StrField("fieldManager", a.fieldManager) + StrField("fieldManagerSuffix", a.fieldManagerSuffix) +
    (if a.force.Some? then map["force" := JBool(a.force.value)] else map[]) +
    StrField("subResource", a.subResource)
  }

  function PrunedDeletion(x: DeleteOptions): Object {
    map["delete" := JBool(true)] +
    (if x.gracePeriodSeconds.Some? then map["gracePeriodSeconds" := JInt(x.gracePeriodSeconds.value)] else map[]) +
    DeletionTexts(x)
  }

  function DeletionTexts(x: DeleteOptions): Object {
    StrField("propagationPolicy", x.propagationPolicy) +
    StrField("preconditionUID", x.preconditionUID) +
    StrField("preconditionResourceVersion", x.preconditionResourceVersion)
  }

  /** Evaluating the template; None where an assertion of the library fails. */
  function Render(t: Template): Option<Json>
    decreases t, 0
  {
    match t
    case Null => Some(JNull)
    case Plain(o) => Some(JObj(o))
    case WithOptions(o, a) => Some(JObj(o[OPTIONS_KEY := JObj(PrunedOptions(a))]))
    case Marked(o, x) =>
      if x.propagationPolicy in {None, Some("Background"), Some("Foreground"), Some("Orphan")}
      then Some(JObj(o[DELETION_KEY := JObj(PrunedDeletion(x))])) else None
    case Group(ts, policy) =>
      var members := RenderAll(ts);
      if members.None? then None
      else if policy.GetOr("") == "" then Some(JArr(members.value))
      else if policy.value in {"Continue", "Abort"} then Some(JArr([JObj(Config(policy.value))] + members.value))
      else None
  }

  function RenderAll(ts: seq<Template>): (r: Option<seq<Json>>)
    ensures r.Some? ==> |r.value| == |ts|
    decreases ts
  {
    if ts == [] then Some([])
    else
      match (Render(ts[0]), RenderAll(ts[1..]))
      case (Some(v), Some(vs)) => Some([v] + vs)
      case _ => None
  }

  /** What the assertions of the library ask: propagation and error policies are among the known ones. */
  predicate PoliciesAreKnown(t: Template) {
    match t
    case Marked(_, x) => x.propagationPolicy.Some? ==> x.propagationPolicy.value in {"Background", "Foreground", "Orphan"}
    case Group(ts, policy) =>
      && (policy.Some? ==> policy.value in {"", "Continue", "Abort"})
      && forall i :: 0 <= i < |ts| ==> PoliciesAreKnown(ts[i])
    case _ => true
  }

  /** A template evaluates exactly if no assertion of the library fails, however deep it stands. */
  lemma {:induction false} RendersIff(t: Template)
    ensures Render(t).Some? <==> PoliciesAreKnown(t)
    decreases t, 0
  {
    match t
    case Group(ts, policy) =>
      AllRenderIff(ts);
      GroupRendersIff(ts, policy);
    case Marked(o, x) => MarkedRendersIff(o, x);
    case _ =>
  }

  lemma MarkedRendersIff(o: Object, x: DeleteOptions)
    ensures Render(Marked(o, x)).Some? <==> PoliciesAreKnown(Marked(o, x))
  {
    hide PrunedDeletion;
    var p := x.propagationPolicy;
    if p.Some? {
      assert p in {None, Some("Background"), Some("Foreground"), Some("Orphan")} <==>
        p.value == "Background" || p.value == "Foreground" || p.value == "Orphan";
    }
  }

  lemma GroupRendersIff(ts: seq<Template>, policy: Option<string>)
    requires RenderAll(ts).Some? <==> forall i :: 0 <= i < |ts| ==> PoliciesAreKnown(ts[i])
    ensures Render(Group(ts, policy)).Some? <==> PoliciesAreKnown(Group(ts, policy))
  {
    hide RenderAll, Config;
    assert policy.Some? ==> policy.GetOr("") == policy.value;
  }

  lemma {:induction false} AllRenderIff(ts: seq<Template>)
    ensures RenderAll(ts).Some? <==> forall i :: 0 <= i < |ts| ==> PoliciesAreKnown(ts[i])
    decreases ts
  {
    if ts != [] {
      RendersIff(ts[0]);
      AllRenderIff(ts[1..]);
      assert forall i :: 1 <= i < |ts| ==> ts[i] == ts[1..][i - 1];
    }
  }

  /** Objects with a kind that are no group configs and use no reserved keys. */
  predicate GoodObject(o: Object) {
    HasKind(o) && !IsConfig(o) && OPTIONS_KEY !in o && DELETION_KEY !in o
  }

  predicate Good(t: Template) {
    match t
    case Null => true
    case Plain(o) => GoodObject(o)
    case WithOptions(o, _) => GoodObject(o)
    case Marked(o, _) => GoodObject(o)
    case Group(ts, _) => forall i :: 0 <= i < |ts| ==> Good(ts[i])
  }

  /** What an object is applied with: its own options first, then the resource's, then the fallback. */
  function Resolved(d: Defaults, a: ApplyOptions): PatchOptions {
    var manager := a.fieldManager.GetOr(d.fieldManager);
    PatchOptions(
      (if manager == "" then d.fieldManagerFallback else manager) + a.fieldManagerSuffix.GetOr(""),
      a.force.GetOr(d.force))
  }

  const NO_OPTIONS := ApplyOptions(None, None, None, None)

  /**
   The tree has the template's shape: the same nulls, objects, deletions and groups at the same
   places, objects without the options key, deletion targets stripped to their identity.
   */
  predicate Recovers(d: Defaults, t: Template, a: Applier, parentPolicy: string) {
    match t
    case Null => a == BLANK
    case Plain(o) =>
      a == BLANK.(kind := ApplyKind, resource := Some(o), applyOptions := Some(Resolved(d, NO_OPTIONS)))
    case WithOptions(o, x) =>
      a == BLANK.(kind := ApplyKind, resource := Some(o), applyOptions := Some(Resolved(d, x)), subResource := x.subResource.GetOr(""))
    case Marked(o, x) =>
      a == BLANK.(kind := DeleteKind, resource := Some(Strip(o)), deleteOptions := Some(x))
    case Group(ts, policy) =>
      var own := policy.GetOr("");
      && a.kind.GroupKind? && a.errorPolicy == (if own != "" then own else parentPolicy)
      && |a.group| == |ts|
      && forall i :: 0 <= i < |ts| ==> Recovers(d, ts[i], a.group[i], own)
  }

  lemma PlainRecovers(d: Defaults, o: Object)
    requires GoodObject(o)
    ensures ParseObject(d, o, true) == ParseObject(d, o, false) ==
            Ok(BLANK.(kind := ApplyKind, resource := Some(o), applyOptions := Some(Resolved(d, NO_OPTIONS))))
  {
    assert Nested(o, DELETION_KEY, "delete") == Absent;
    assert Nested(o, OPTIONS_KEY, "fieldManager") == Absent && Nested(o, OPTIONS_KEY, "fieldManagerSuffix") == Absent;
    assert Nested(o, OPTIONS_KEY, "force") == Absent && Nested(o, OPTIONS_KEY, "subResource") == Absent;
    assert o - {OPTIONS_KEY} == o;
    assert Resolved(d, NO_OPTIONS).fieldManager == (if d.fieldManager == "" then d.fieldManagerFallback else d.fieldManager) + "";
  }

  /** Maps of one name each, with different names, keep their entries in the union. */
  lemma UnionOfFields(m: Object, n: Object, o: Object, p: Object, a: string, b: string, c: string, d: string)
    requires m.Keys <= {a} && n.Keys <= {b} && o.Keys <= {c} && p.Keys <= {d}
    requires a != b && a != c && a != d && b != c && b != d && c != d
    ensures var all := m + n + o + p;
            At(all, a) == At(m, a) && At(all, b) == At(n, b) && At(all, c) == At(o, c) && At(all, d) == At(p, d)
  {
  }

  lemma PrunedOptionsFields(a: ApplyOptions)
    ensures var m := PrunedOptions(a);
            && ("fieldManager" in m <==> a.fieldManager.Some?) && (a.fieldManager.Some? ==> m["fieldManager"] == JStr(a.fieldManager.value))
            && ("fieldManagerSuffix" in m <==> a.fieldManagerSuffix.Some?)
            && (a.fieldManagerSuffix.Some? ==> m["fieldManagerSuffix"] == JStr(a.fieldManagerSuffix.value))
            && ("force" in m <==> a.force.Some?) && (a.force.Some? ==> m["force"] == JBool(a.force.value))
            && ("subResource" in m <==> a.subResource.Some?) && (a.subResource.Some? ==> m["subResource"] == JStr(a.subResource.value))
  {
    DistinctNames();
    var force: Object := if a.force.Some? then map["force" := JBool(a.force.value)] else map[];
    UnionOfFields(
      StrField("fieldManager", a.fieldManager), StrField("fieldManagerSuffix", a.fieldManagerSuffix), force,
      StrField("subResource", a.subResource), "fieldManager", "fieldManagerSuffix", "force", "subResource");
    var m := PrunedOptions(a);
    hide PrunedOptions;
    assert At(m, "fieldManager") == if a.fieldManager.Some? then Some(JStr(a.fieldManager.value)) else None;
    assert At(m, "fieldManagerSuffix") == if a.fieldManagerSuffix.Some? then Some(JStr(a.fieldManagerSuffix.value)) else None;
    assert At(m, "force") == if a.force.Some? then Some(JBool(a.force.value)) else None;
    assert At(m, "subResource") == if a.subResource.Some? then Some(JStr(a.subResource.value)) else None;
  }

  /** The option names are different strings. */
  lemma DistinctNames()
    ensures "fieldManager" != "fieldManagerSuffix" && "fieldManager" != "force" && "fieldManager" != "subResource"
    ensures "fieldManagerSuffix" != "force" && "fieldManagerSuffix" != "subResource" && "force" != "subResource"
    ensures "delete" != "gracePeriodSeconds" && "delete" != "propagationPolicy" && "delete" != "preconditionUID"
    ensures "delete" != "preconditionResourceVersion" && "gracePeriodSeconds" != "propagationPolicy"
    ensures "gracePeriodSeconds" != "preconditionUID" && "gracePeriodSeconds" != "preconditionResourceVersion"
    ensures "propagationPolicy" != "preconditionUID" && "propagationPolicy" != "preconditionResourceVersion"
    ensures "preconditionUID" != "preconditionResourceVersion"
    ensures OPTIONS_KEY !in {"apiVersion", "kind", "metadata"} && DELETION_KEY !in {"apiVersion", "kind", "metadata"}
    ensures OPTIONS_KEY != DELETION_KEY
  {
    assert |"fieldManager"| == 12 && |"fieldManagerSuffix"| == 18 && |"subResource"| == 11 && |"force"| == 5;
    assert |"delete"| == 6 && |"gracePeriodSeconds"| == 18 && |"propagationPolicy"| == 17;
    assert |"preconditionUID"| == 15 && |"preconditionResourceVersion"| == 27;
    assert |OPTIONS_KEY| == 41 && |DELETION_KEY| == 36;
  }

  lemma OptionsAreRead(d: Defaults, p: Object, x: ApplyOptions)
    requires OPTIONS_KEY in p && p[OPTIONS_KEY] == JObj(PrunedOptions(x))
    ensures PatchOptionsFromObject(d, p) == Ok((Resolved(d, x), x.subResource.GetOr(""), p - {OPTIONS_KEY}))
  {
    PrunedOptionsFields(x);
    hide PrunedOptions;
  }

  lemma UnmarkedIsKept(p: Object)
    requires DELETION_KEY !in p
    ensures DeleteOptionsFromObject(p) == Ok(None)
  {
    assert Nested(p, DELETION_KEY, "delete") == Absent;
  }

  lemma OptionsRecover(d: Defaults, o: Object, x: ApplyOptions)
    requires GoodObject(o)
    ensures var p := o[OPTIONS_KEY := JObj(PrunedOptions(x))];
            && !IsConfig(p)
            && ParseObject(d, p, true) == ParseObject(d, p, false) ==
               Ok(BLANK.(kind := ApplyKind, resource := Some(o), applyOptions := Some(Resolved(d, x)),
                         subResource := x.subResource.GetOr("")))
  {
    var m := PrunedOptions(x);
    var p := o[OPTIONS_KEY := JObj(m)];
    DistinctNames();
    OtherFieldsDoNotIdentify(o, OPTIONS_KEY, JObj(m));
    OptionsAreRead(d, p, x);
    UnmarkedIsKept(p);
    assert p - {OPTIONS_KEY} == o;
    hide PrunedOptions, DeleteOptionsFromObject, PatchOptionsFromObject, GvkOf, Strip, Resolved;
  }

  lemma DeletionTextFields(x: DeleteOptions)
    ensures var m := DeletionTexts(x);
            && "delete" !in m && "gracePeriodSeconds" !in m
            && ("propagationPolicy" in m <==> x.propagationPolicy.Some?)
            && (x.propagationPolicy.Some? ==> m["propagationPolicy"] == JStr(x.propagationPolicy.value))
            && ("preconditionUID" in m <==> x.preconditionUID.Some?)
            && (x.preconditionUID.Some? ==> m["preconditionUID"] == JStr(x.preconditionUID.value))
            && ("preconditionResourceVersion" in m <==> x.preconditionResourceVersion.Some?)
            && (x.preconditionResourceVersion.Some? ==>
                  m["preconditionResourceVersion"] == JStr(x.preconditionResourceVersion.value))
  {
    DistinctNames();
  }

  lemma PrunedDeletionFields(x: DeleteOptions)
    ensures var m := PrunedDeletion(x);
            && "delete" in m && m["delete"] == JBool(true)
            && ("gracePeriodSeconds" in m <==> x.gracePeriodSeconds.Some?)
            && (x.gracePeriodSeconds.Some? ==> m["gracePeriodSeconds"] == JInt(x.gracePeriodSeconds.value))
            && forall name :: name in {"propagationPolicy", "preconditionUID", "preconditionResourceVersion"} ==>
                 At(m, name) == At(DeletionTexts(x), name)
  {
    DistinctNames();
    DeletionTextFields(x);
    hide DeletionTexts;
  }

  function At(m: Object, name: string): Option<Json> { if name in m then Some(m[name]) else None }

  lemma DeletionIsRead(p: Object, x: DeleteOptions)
    requires DELETION_KEY in p && p[DELETION_KEY] == JObj(PrunedDeletion(x))
    ensures DeleteOptionsFromObject(p) == Ok(Some(x))
  {
    PrunedDeletionFields(x);
    DeletionTextFields(x);
    var m := PrunedDeletion(x);
    hide PrunedDeletion, DeletionTexts;
    assert At(m, "propagationPolicy") == At(DeletionTexts(x), "propagationPolicy");
    assert At(m, "preconditionUID") == At(DeletionTexts(x), "preconditionUID");
    assert At(m, "preconditionResourceVersion") == At(DeletionTexts(x), "preconditionResourceVersion");
  }

  lemma DeletionRecovers(d: Defaults, o: Object, x: DeleteOptions)
    requires GoodObject(o)
    ensures var p := o[DELETION_KEY := JObj(PrunedDeletion(x))];
            && !IsConfig(p)
            && ParseObject(d, p, true) == ParseObject(d, p, false) ==
               Ok(BLANK.(kind := DeleteKind, resource := Some(Strip(o)), deleteOptions := Some(x)))
  {
    var m := PrunedDeletion(x);
    var p := o[DELETION_KEY := JObj(m)];
    DistinctNames();
    OtherFieldsDoNotIdentify(o, DELETION_KEY, JObj(m));
    DeletionIsRead(p, x);
    hide PrunedDeletion, DeleteOptionsFromObject, PatchOptionsFromObject, GvkOf, Strip;
  }

  lemma {:induction false} RenderedIsRead(d: Defaults, t: Template, parentPolicy: string)
    requires Good(t) && Render(t).Some?
    ensures var v := Render(t).value;
            && Accepts(v, true) && Accepts(v, false) && !ConfigElement(v)
            && Recovers(d, t, Build(d, v, parentPolicy), parentPolicy)
    decreases t, 0
  {
    match t
    case Null =>
    case Plain(o) =>
      PlainRecovers(d, o);
      PlainRecovers(Defaults("", false, ""), o);
    case WithOptions(o, x) =>
      OptionsRecover(d, o, x);
      OptionsRecover(Defaults("", false, ""), o, x);
    case Marked(o, x) =>
      DeletionRecovers(d, o, x);
      DeletionRecovers(Defaults("", false, ""), o, x);
    case Group(ts, policy) =>
      RenderedGroupIsRead(d, ts, policy, parentPolicy);
  }

  lemma {:induction false} RenderedGroupIsRead(d: Defaults, ts: seq<Template>, policy: Option<string>, parentPolicy: string)
    requires Good(Group(ts, policy)) && Render(Group(ts, policy)).Some?
    ensures var t := Group(ts, policy);
            var v := Render(t).value;
            && Accepts(v, true) && Accepts(v, false) && !ConfigElement(v)
            && Recovers(d, t, Build(d, v, parentPolicy), parentPolicy)
    decreases ts, 2
  {
    var vs := RenderAll(ts).value;
    var own := policy.GetOr("");
    AllRenderedAreRead(d, ts, own);
    var xs := GroupElements(ts, policy, vs, own);
    GroupAccepted(xs, vs);
    hide ConfigPolicy, Config, IsConfig, Render, RenderAll, HasKind, ParseObject, Good, GvkOf, Members, Explicit, Accepts, BuildAll;
  }

  /** Accepted members, after a config element or without one, make an accepted array. */
  lemma GroupAccepted(xs: seq<Json>, vs: seq<Json>)
    requires forall i :: 0 <= i < |vs| ==> Accepts(vs[i], false) && !ConfigElement(vs[i])
    requires xs == vs || (xs != [] && xs == [xs[0]] + vs && ConfigElement(xs[0]) && Accepts(xs[0], false) && ConfigPolicy(xs[0].fields).Ok?)
    ensures Accepts(JArr(xs), true) && Accepts(JArr(xs), false) && !ConfigElement(JArr(xs))
  {
    hide ParseObject, ConfigPolicy, IsConfig;
  }

  /** The elements of a printed group: its config element, if it has a policy, and the members. */
  lemma GroupElements(ts: seq<Template>, policy: Option<string>, vs: seq<Json>, own: string) returns (xs: seq<Json>)
    requires Render(Group(ts, policy)).Some? && RenderAll(ts) == Some(vs) && own == policy.GetOr("")
    requires forall i :: 0 <= i < |vs| ==> !ConfigElement(vs[i])
    ensures Render(Group(ts, policy)) == Some(JArr(xs)) && Members(xs) == vs && Explicit(xs) == own
    ensures own == "" ==> xs == vs
    ensures own != "" ==> xs == [JObj(Config(own))] + vs
    ensures own != "" ==> ConfigElement(xs[0]) && Accepts(xs[0], false) && ConfigPolicy(xs[0].fields).Ok?
  {
    hide RenderAll, GvkOf, HasKind, Config;
    xs := if own == "" then vs else [JObj(Config(own))] + vs;
    if own != "" {
      ConfigIsConfig(own);
      assert xs[1..] == vs;
    }
  }

  lemma {:induction false} AllRenderedAreRead(d: Defaults, ts: seq<Template>, own: string)
    requires (forall i :: 0 <= i < |ts| ==> Good(ts[i])) && RenderAll(ts).Some?
    ensures var vs := RenderAll(ts).value;
            forall i :: 0 <= i < |ts| ==>
              Accepts(vs[i], false) && !ConfigElement(vs[i]) && Recovers(d, ts[i], BuildAll(d, vs, own)[i], own)
    decreases ts, 1
  {
    hide Accepts, Recovers, Build, Render, Good, ConfigElement;
    if ts != [] {
      RenderedIsRead(d, ts[0], own);
      AllRenderedAreRead(d, ts[1..], own);
    }
  }

  /**
   The round trip: whatever the library functions print from good objects, the parser reads back from
   its tokens completely and recovers the template, options included.
   */
  lemma PrintedTemplatesParse(d: Defaults, t: Template)
    requires Good(t) && Render(t).Some?
    ensures var ts := Flatten(Render(t).value);
            ParseValue(d, ts, 0, None).Ok? &&
            var (a, end) := ParseValue(d, ts, 0, None).value;
            end == |ts| && Recovers(d, t, a, "")
  {
    var v := Render(t).value;
    RenderedIsRead(d, t, "");
    hide Flatten, ParseValue, Accepts, Recovers, Build;
    assert Flatten(v)[0..|Flatten(v)|] == Flatten(v);
    AcceptedParses(d, Flatten(v), 0, v, None);
  }
}
