/**
 Error-policy inheritance. The library documents that groups inherit the options of their parent
 unless they override them. The parser hands a group's policy to its children before it has itself
 inherited one, so a policy reaches down one level only. This module says exactly when that differs.
 */
module ApplyGroupInheritance {
  import opened Wrappers
  import opened Unstructured
  import opened ApplyGroup
  import opened ApplyGroupGrammar

  /** The documented rule: the policy of the nearest enclosing array that sets one. */
  function BuildNearest(d: Defaults, v: Json, inherited: string): Applier
    decreases v, 0
  {
    match v
    case JArr(xs) =>
      var own := Explicit(xs);
      var policy := if own != "" then own else inherited;
      BLANK.(kind := GroupKind, errorPolicy := policy, group := BuildAllNearest(d, Members(xs), policy))
    case _ => Build(d, v, inherited)
  }

  function BuildAllNearest(d: Defaults, xs: seq<Json>, policy: string): (r: seq<Applier>)
    ensures |r| == |xs|
    decreases xs
  {
    if xs == [] then [] else [BuildNearest(d, xs[0], policy)] + BuildAllNearest(d, xs[1..], policy)
  }

  /** Two trees have the same policies as far as `view` can tell. */
  ghost predicate PoliciesAgree<T>(view: string -> T, a: Applier, b: Applier) {
    && (a.kind.GroupKind? ==> view(a.errorPolicy) == view(b.errorPolicy))
    && |a.group| == |b.group|
    && forall i :: 0 <= i < |a.group| ==> PoliciesAgree(view, a.group[i], b.group[i])
  }

  /** An array that sets no policy. */
  predicate Bare(v: Json) { v.JArr? && Explicit(v.items) == "" }

  predicate HasBareMember(v: Json)
    requires v.JArr?
  {
    exists i :: 0 <= i < |Members(v.items)| && Bare(Members(v.items)[i])
  }

  /** An array that sets a visible policy around two bare arrays, one inside the other. */
  ghost predicate Gap<T>(view: string -> T, v: Json)
    requires v.JArr?
  {
    view(Explicit(v.items)) != view("") &&
    exists i :: 0 <= i < |Members(v.items)| && Bare(Members(v.items)[i]) && HasBareMember(Members(v.items)[i])
  }

  ghost predicate HasGap<T>(view: string -> T, v: Json) {
    v.JArr? && (Gap(view, v) || exists i :: 0 <= i < |v.items| && HasGap(view, v.items[i]))
  }

  /** What the surroundings of v must be like for v to get the same policies under both rules. */
  ghost predicate Fits<T>(view: string -> T, v: Json, parentExplicit: string, inherited: string) {
    Bare(v) ==>
      view(parentExplicit) == view(inherited) && (view(inherited) == view("") || !HasBareMember(v))
  }

  lemma {:induction false} BuildAllNearestAt(d: Defaults, xs: seq<Json>, policy: string, i: nat)
    requires i < |xs|
    ensures BuildAllNearest(d, xs, policy)[i] == BuildNearest(d, xs[i], policy)
  {
    if i > 0 { BuildAllNearestAt(d, xs[1..], policy, i - 1); }
  }

  /** Gaps below an array are gaps below its members: a config element has none. */
  lemma GapsAreInMembers<T>(view: string -> T, xs: seq<Json>)
    ensures (exists i :: 0 <= i < |xs| && HasGap(view, xs[i])) <==>
            (exists i :: 0 <= i < |Members(xs)| && HasGap(view, Members(xs)[i]))
  {
    var ms := Members(xs);
    if i :| 0 <= i < |xs| && HasGap(view, xs[i]) {
      assert ms == xs || ms[i - 1] == xs[i];
    }
    if i :| 0 <= i < |ms| && HasGap(view, ms[i]) {
      assert ms[i] == xs[if |ms| == |xs| then i else i + 1];
    }
  }

  lemma {:induction false} AgreeIffNoGapBelow<T>(
      view: string -> T, d: Defaults, v: Json, parentExplicit: string, inherited: string)
    requires Accepts(v, false) && !ConfigElement(v)
    ensures PoliciesAgree(view, Build(d, v, parentExplicit), BuildNearest(d, v, inherited)) <==>
            !HasGap(view, v) && Fits(view, v, parentExplicit, inherited)
    decreases v
  {
    if v.JArr? {
      var own, ms := Explicit(v.items), Members(v.items);
      var policy := if own != "" then own else inherited;
      GapsAreInMembers(view, v.items);
      forall i | 0 <= i < |ms|
        ensures PoliciesAgree(view, BuildAll(d, ms, own)[i], BuildAllNearest(d, ms, policy)[i]) <==>
                !HasGap(view, ms[i]) && Fits(view, ms[i], own, policy)
      {
        assert ms[i] in v.items;
        AgreeIffNoGapBelow(view, d, ms[i], own, policy);
        BuildAllAt(d, ms, own, i);
        BuildAllNearestAt(d, ms, policy, i);
      }
      SplitArray(view, d, v, parentExplicit, inherited);
    } else if v.JObj? {
      DefaultsDoNotMatter(d, v.fields, false);
      assert Build(d, v, parentExplicit) == BuildNearest(d, v, inherited);
      LeavesAgree(view, Build(d, v, parentExplicit));
    }
  }

  lemma LeavesAgree<T>(view: string -> T, a: Applier)
    requires a.group == []
    ensures PoliciesAgree(view, a, a)
  {
  }

  /** The two trees of one array. */
  lemma ArrayTrees(d: Defaults, v: Json, parentExplicit: string, inherited: string)
    requires v.JArr?
    ensures var own, ms := Explicit(v.items), Members(v.items);
            var policy := if own != "" then own else inherited;
            && var (a, b) := (Build(d, v, parentExplicit), BuildNearest(d, v, inherited));
            && a.errorPolicy == (if own != "" then own else parentExplicit) && b.errorPolicy == policy
            && a.group == BuildAll(d, ms, own) && b.group == BuildAllNearest(d, ms, policy)
  {
    hide BuildAll, BuildAllNearest, Members, Explicit;
  }

  /** One array, given the verdict on each of its members. */
  lemma SplitArray<T>(view: string -> T, d: Defaults, v: Json, parentExplicit: string, inherited: string)
    requires v.JArr?
    requires var own, ms := Explicit(v.items), Members(v.items);
             var policy := if own != "" then own else inherited;
             forall i :: 0 <= i < |ms| ==>
               (PoliciesAgree(view, BuildAll(d, ms, own)[i], BuildAllNearest(d, ms, policy)[i]) <==>
                !HasGap(view, ms[i]) && Fits(view, ms[i], own, policy))
    requires (exists i :: 0 <= i < |v.items| && HasGap(view, v.items[i])) <==>
             (exists i :: 0 <= i < |Members(v.items)| && HasGap(view, Members(v.items)[i]))
    ensures PoliciesAgree(view, Build(d, v, parentExplicit), BuildNearest(d, v, inherited)) <==>
            !HasGap(view, v) && Fits(view, v, parentExplicit, inherited)
  {
    var own, ms := Explicit(v.items), Members(v.items);
    var policy := if own != "" then own else inherited;
    var a, b := Build(d, v, parentExplicit), BuildNearest(d, v, inherited);
    ArrayTrees(d, v, parentExplicit, inherited);
    hide Build, BuildNearest, BuildAll, BuildAllNearest;
    assert PoliciesAgree(view, a, b) <==>
      view(a.errorPolicy) == view(b.errorPolicy) &&
      forall i :: 0 <= i < |ms| ==> !HasGap(view, ms[i]) && Fits(view, ms[i], own, policy);
  }

  /**
   The exact rule: the parser's policies are those of nearest-ancestor inheritance if and only if no
   array that sets a policy has a bare array around another bare array among its members. Seen
   through `view`, only policies that differ visibly from the empty one matter.
   */
  lemma InheritanceReachesOneLevel<T>(view: string -> T, d: Defaults, v: Json)
    requires Accepts(v, true)
    ensures PoliciesAgree(view, Build(d, v, ""), BuildNearest(d, v, "")) <==> !HasGap(view, v)
  {
    assert !ConfigElement(v);
    assert Accepts(v, false);
    AgreeIffNoGapBelow(view, d, v, "", "");
  }

  /** What Apply makes of a policy: only Abort stops a group. */
  predicate Aborts(policy: string) { policy == "Abort" }

  /** The config element applyGroup prints. */
  function Config(policy: string): Object {
    map["apiVersion" := JStr(CONFIG_GVK.group + "/" + CONFIG_GVK.version), "kind" := JStr(CONFIG_GVK.kind),
        "spec" := JObj(map["errorPolicy" := JStr(policy)])]
  }

  lemma PrintedGvk(o: Object, g: Gvk)
    requires '/' !in g.group && '/' !in g.version && g.group != "" && g.version != ""
    requires StringField(o, "apiVersion") == g.group + "/" + g.version && StringField(o, "kind") == g.kind
    ensures GvkOf(o) == g
  {
    Text.SplitPair(g.group, g.version, '/');
    assert g.group + ['/'] + g.version == g.group + "/" + g.version;
  }

  lemma ConfigIsConfig(policy: string)
    ensures IsConfig(Config(policy)) && HasKind(Config(policy))
    ensures NestedString(Config(policy), "spec", "errorPolicy") == Found(policy)
    ensures policy in {"Continue", "Abort"} ==> ConfigPolicy(Config(policy)) == Ok(Some(policy))
  {
    hide GvkOf;
    var o := Config(policy);
    PrintedGvk(o, CONFIG_GVK);
    assert o["spec"] == JObj(map["errorPolicy" := JStr(policy)]);
  }
}
