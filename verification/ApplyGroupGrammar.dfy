/**
 Which documents the apply-group parser accepts and what it makes of them, said without a cursor:
 a JSON value, a predicate on it and the tree it stands for. Then error-policy inheritance, exactly.
 */
module ApplyGroupGrammar {
  import opened Wrappers
  import opened Unstructured
  import opened ApplyGroup

  /** The tokens of one JSON value. */
  function Flatten(v: Json): (ts: seq<Token>)
    ensures |ts| >= 1
    decreases v, 0
  {
    match v
    case JNull => [NullToken]
    case JObj(o) => [ObjectToken(o)]
    case JArr(xs) => [OpenArray] + FlattenAll(xs) + [CloseArray]
    case _ => [ScalarToken(v)]
  }

  function FlattenAll(xs: seq<Json>): seq<Token>
    decreases xs
  {
    if xs == [] then [] else Flatten(xs[0]) + FlattenAll(xs[1..])
  }

  predicate ConfigElement(v: Json) { v.JObj? && IsConfig(v.fields) }

  /**
   The well-formed documents: null, objects with a kind and readable options, and arrays of such. A
   group config never stands at the root and only at index 0 of an array, nulls counted.
   */
  predicate Accepts(v: Json, atRoot: bool) {
    match v
    case JNull => true
    case JObj(o) => ParseObject(Defaults("", false, ""), o, atRoot).Ok?
    case JArr(xs) =>
      forall i :: 0 <= i < |xs| ==>
        && Accepts(xs[i], false)
        && (ConfigElement(xs[i]) ==> i == 0 && ConfigPolicy(xs[i].fields).Ok?)
    case _ => false
  }

  /** The policy an array sets for itself, or the empty string. */
  function Explicit(xs: seq<Json>): string {
    if xs != [] && ConfigElement(xs[0]) then
      match ConfigPolicy(xs[0].fields)
      case Ok(Some(p)) => p
      case _ => ""
    else ""
  }

  /** The array without its config element. */
  function Members(xs: seq<Json>): seq<Json> {
    if xs != [] && ConfigElement(xs[0]) then xs[1..] else xs
  }

  /**
   The tree of a document. A group without a policy of its own takes the one its parent set for
   itself, not the one its parent ended up with.
   */
  function Build(d: Defaults, v: Json, parentExplicit: string): Applier
    decreases v, 0
  {
    match v
    case JObj(o) =>
      (match ParseObject(d, o, false)
       case Ok(a) => a
       case Err(_) => BLANK)
    case JArr(xs) =>
      var own := Explicit(xs);
      BLANK.(kind := GroupKind,
             errorPolicy := if own != "" then own else parentExplicit,
             group := BuildAll(d, Members(xs), own))
    case _ => BLANK
  }

  function BuildAll(d: Defaults, xs: seq<Json>, own: string): (r: seq<Applier>)
    ensures |r| == |xs|
    decreases xs
  {
    if xs == [] then [] else [Build(d, xs[0], own)] + BuildAll(d, xs[1..], own)
  }

  // ---- accepted documents parse to their tree ----

  lemma {:induction false} BuildAllAt(d: Defaults, xs: seq<Json>, own: string, i: nat)
    requires i < |xs|
    ensures BuildAll(d, xs, own)[i] == Build(d, xs[i], own)
  {
    if i > 0 { BuildAllAt(d, xs[1..], own, i - 1); }
  }

  predicate At(ts: seq<Token>, pos: nat, part: seq<Token>) { pos + |part| <= |ts| && ts[pos..pos + |part|] == part }

  /** Defaults never decide whether an object is readable. */
  lemma DefaultsDoNotMatter(d: Defaults, o: Object, atRoot: bool)
    ensures ParseObject(d, o, atRoot).Ok? <==> ParseObject(Defaults("", false, ""), o, atRoot).Ok?
  {
  }

  lemma AtSplit(ts: seq<Token>, pos: nat, a: seq<Token>, b: seq<Token>)
    requires At(ts, pos, a + b)
    ensures At(ts, pos, a) && At(ts, pos + |a|, b)
  {
    var w := ts[pos..pos + |a + b|];
    assert w[..|a|] == a && w[|a|..] == b;
    assert ts[pos..pos + |a|] == w[..|a|];
    assert ts[pos + |a|..pos + |a| + |b|] == w[|a|..];
  }

  lemma AtJoin(ts: seq<Token>, pos: nat, a: seq<Token>, b: seq<Token>)
    requires At(ts, pos, a) && At(ts, pos + |a|, b)
    ensures At(ts, pos, a + b)
  {
    assert ts[pos..pos + |a| + |b|] == ts[pos..pos + |a|] + ts[pos + |a|..pos + |a| + |b|];
  }

  lemma {:induction false} AcceptedParses(d: Defaults, ts: seq<Token>, pos: nat, v: Json, parent: Option<string>)
    requires Accepts(v, parent.None?) && At(ts, pos, Flatten(v))
    ensures ParseValue(d, ts, pos, parent) == Ok((Build(d, v, parent.GetOr("")), pos + |Flatten(v)|))
    decreases v, 0
  {
    hide At, ParseValue, Build, Flatten, ParseObject;
    match v
    case JArr(xs) => AcceptedArrayParses(d, ts, pos, xs, parent);
    case _ => AcceptedLeafParses(d, ts, pos, v, parent);
  }

  lemma AcceptedLeafParses(d: Defaults, ts: seq<Token>, pos: nat, v: Json, parent: Option<string>)
    requires !v.JArr? && Accepts(v, parent.None?) && At(ts, pos, Flatten(v))
    ensures ParseValue(d, ts, pos, parent) == Ok((Build(d, v, parent.GetOr("")), pos + |Flatten(v)|))
  {
    FirstToken(ts, pos, v);
    hide At, ParseObject;
    if v.JObj? {
      ObjectAnywhere(d, v.fields, parent.None?);
    }
  }

  /** Where an object stands decides whether it is accepted, never what it becomes. */
  lemma ObjectAnywhere(d: Defaults, o: Object, atRoot: bool)
    ensures ParseObject(d, o, atRoot).Ok? <==> ParseObject(Defaults("", false, ""), o, atRoot).Ok?
    ensures ParseObject(d, o, atRoot).Ok? ==> ParseObject(d, o, atRoot) == ParseObject(d, o, false)
  {
    DefaultsDoNotMatter(d, o, atRoot);
    hide DeleteOptionsFromObject, PatchOptionsFromObject, IsConfig, Strip;
  }

  lemma {:induction false} AcceptedArrayParses(d: Defaults, ts: seq<Token>, pos: nat, xs: seq<Json>, parent: Option<string>)
    requires Accepts(JArr(xs), false) && At(ts, pos, Flatten(JArr(xs)))
    ensures ParseValue(d, ts, pos, parent) == Ok((Build(d, JArr(xs), parent.GetOr("")), pos + |Flatten(JArr(xs))|))
    decreases xs, 3
  {
    hide Accepts, At, ParseValue, ParseElements, Build, BuildAll, Members, Explicit, Flatten, FlattenAll;
    ArrayTokens(ts, pos, xs);
    ElementsParse(d, ts, pos + 1, xs);
    ArrayParses(d, ts, pos, xs, parent);
  }

  lemma FirstToken(ts: seq<Token>, pos: nat, v: Json)
    requires At(ts, pos, Flatten(v))
    ensures pos < |ts| && ts[pos] == Flatten(v)[0]
  {
    assert ts[pos..pos + |Flatten(v)|][0] == ts[pos];
  }

  lemma ArrayTokens(ts: seq<Token>, pos: nat, xs: seq<Json>)
    requires At(ts, pos, Flatten(JArr(xs)))
    ensures |Flatten(JArr(xs))| == |FlattenAll(xs)| + 2
    ensures pos < |ts| && ts[pos] == OpenArray
    ensures At(ts, pos + 1, FlattenAll(xs))
    ensures pos + 1 + |FlattenAll(xs)| < |ts| && ts[pos + 1 + |FlattenAll(xs)|] == CloseArray
  {
    hide *;
    ArrayFlattened(xs);
    AtSplit(ts, pos, [OpenArray], FlattenAll(xs) + [CloseArray]);
    AtSplit(ts, pos + 1, FlattenAll(xs), [CloseArray]);
    TokenAt(ts, pos, OpenArray);
    TokenAt(ts, pos + 1 + |FlattenAll(xs)|, CloseArray);
  }

  lemma ArrayFlattened(xs: seq<Json>)
    ensures Flatten(JArr(xs)) == [OpenArray] + (FlattenAll(xs) + [CloseArray])
  {
    hide FlattenAll;
  }

  lemma TokenAt(ts: seq<Token>, pos: nat, t: Token)
    requires At(ts, pos, [t])
    ensures pos < |ts| && ts[pos] == t
  {
    assert ts[pos..pos + 1][0] == ts[pos];
  }

  /** The loop over all elements, the config element included. */
  lemma {:induction false} ElementsParse(d: Defaults, ts: seq<Token>, pos: nat, xs: seq<Json>)
    requires Accepts(JArr(xs), false) && At(ts, pos, FlattenAll(xs)) && KindAt(ts, pos + |FlattenAll(xs)|) == ArrayEnd
    ensures ParseElements(d, ts, pos, 0, "", []) ==
            Ok((Explicit(xs), BuildAll(d, Members(xs), Explicit(xs)), pos + |FlattenAll(xs)|))
    decreases xs, 2
  {
    hide *;
    AcceptedArray(xs);
    SplitConfig(xs);
    if xs != [] && ConfigElement(xs[0]) {
      ConfigFirst(d, ts, pos, xs);
      MembersFromHere(d, ts, pos + |Flatten(xs[0])|, xs[1..], 1, Explicit(xs));
    } else {
      MembersFromHere(d, ts, pos, xs, 0, "");
    }
  }

  lemma SplitConfig(xs: seq<Json>)
    ensures if xs != [] && ConfigElement(xs[0])
            then Members(xs) == xs[1..] && |FlattenAll(xs)| == |Flatten(xs[0])| + |FlattenAll(xs[1..])|
            else Members(xs) == xs && Explicit(xs) == ""
  {
  }

  lemma {:induction false} MembersFromHere(d: Defaults, ts: seq<Token>, pos: nat, xs: seq<Json>, i: nat, policy: string)
    requires At(ts, pos, FlattenAll(xs)) && KindAt(ts, pos + |FlattenAll(xs)|) == ArrayEnd
    requires forall j :: 0 <= j < |xs| ==> Accepts(xs[j], false) && !ConfigElement(xs[j])
    ensures ParseElements(d, ts, pos, i, policy, []) == Ok((policy, BuildAll(d, xs, policy), pos + |FlattenAll(xs)|))
    decreases xs, 1, 1
  {
    hide *;
    MembersParse(d, ts, pos, xs, i, policy, []);
    assert [] + BuildAll(d, xs, policy) == BuildAll(d, xs, policy);
  }

  lemma AcceptedArray(xs: seq<Json>)
    requires Accepts(JArr(xs), false)
    ensures forall j :: 0 <= j < |Members(xs)| ==> Accepts(Members(xs)[j], false) && !ConfigElement(Members(xs)[j])
    ensures xs != [] && ConfigElement(xs[0]) ==> Accepts(xs[0], false) && ConfigPolicy(xs[0].fields).Ok?
  {
  }

  /** Around the loop: brackets, and the parent's policy if there is none. */
  lemma ArrayParses(d: Defaults, ts: seq<Token>, pos: nat, xs: seq<Json>, parent: Option<string>)
    requires pos + 1 + |FlattenAll(xs)| < |ts| && ts[pos] == OpenArray && ts[pos + 1 + |FlattenAll(xs)|] == CloseArray
    requires ParseElements(d, ts, pos + 1, 0, "", []) ==
             Ok((Explicit(xs), BuildAll(d, Members(xs), Explicit(xs)), pos + 1 + |FlattenAll(xs)|))
    ensures ParseValue(d, ts, pos, parent) == Ok((Build(d, JArr(xs), parent.GetOr("")), pos + |FlattenAll(xs)| + 2))
  {
    hide ParseElements, BuildAll, Members, Explicit;
  }

  lemma ConfigFirst(d: Defaults, ts: seq<Token>, pos: nat, xs: seq<Json>)
    requires xs != [] && ConfigElement(xs[0]) && Accepts(xs[0], false) && ConfigPolicy(xs[0].fields).Ok?
    requires At(ts, pos, FlattenAll(xs))
    ensures pos + |Flatten(xs[0])| <= |ts| && At(ts, pos + |Flatten(xs[0])|, FlattenAll(xs[1..]))
    ensures ParseElements(d, ts, pos, 0, "", []) == ParseElements(d, ts, pos + |Flatten(xs[0])|, 1, Explicit(xs), [])
  {
    AtSplit(ts, pos, Flatten(xs[0]), FlattenAll(xs[1..]));
    FirstToken(ts, pos, xs[0]);
    ConfigParses(d, ts, pos, xs[0].fields);
    hide At, ParseValue;
  }

  /** A config element in an array decodes to its own object. */
  lemma ConfigParses(d: Defaults, ts: seq<Token>, pos: nat, o: Object)
    requires IsConfig(o) && HasKind(o) && pos < |ts| && ts[pos] == ObjectToken(o)
    ensures ParseValue(d, ts, pos, Some("")) == Ok((BLANK.(kind := ApplyGroupConfigKind, resource := Some(o)), pos + 1))
  {
  }

  lemma {:induction false} MembersParse(d: Defaults, ts: seq<Token>, pos: nat, xs: seq<Json>, i: nat, policy: string, group: seq<Applier>)
    requires At(ts, pos, FlattenAll(xs)) && KindAt(ts, pos + |FlattenAll(xs)|) == ArrayEnd
    requires forall j :: 0 <= j < |xs| ==> Accepts(xs[j], false) && !ConfigElement(xs[j])
    ensures ParseElements(d, ts, pos, i, policy, group) == Ok((policy, group + BuildAll(d, xs, policy), pos + |FlattenAll(xs)|))
    decreases xs, 1, 0
  {
    hide Accepts, ParseValue, Build, Flatten, At;
    if xs == [] {
      assert group + BuildAll(d, xs, policy) == group;
    } else {
      var x := xs[0];
      AtSplit(ts, pos, Flatten(x), FlattenAll(xs[1..]));
      AcceptedParses(d, ts, pos, x, Some(policy));
      var elem := Build(d, x, policy);
      StartsElement(d, ts, pos, x, policy);
      MembersParse(d, ts, pos + |Flatten(x)|, xs[1..], i + 1, policy, group + [elem]);
      assert group + [elem] + BuildAll(d, xs[1..], policy) == group + BuildAll(d, xs, policy);
    }
  }

  lemma StartsElement(d: Defaults, ts: seq<Token>, pos: nat, x: Json, policy: string)
    requires At(ts, pos, Flatten(x)) && !ConfigElement(x)
    ensures KindAt(ts, pos) !in {ArrayEnd, NoToken}
    ensures !Build(d, x, policy).kind.ApplyGroupConfigKind?
  {
    FirstToken(ts, pos, x);
  }

  // ---- what parses is an accepted document ----

  lemma BracketTokens(ts: seq<Token>, pos: nat, xs: seq<Json>)
    requires pos < |ts| && ts[pos] == OpenArray && At(ts, pos + 1, FlattenAll(xs))
    requires pos + 1 + |FlattenAll(xs)| < |ts| && ts[pos + 1 + |FlattenAll(xs)|] == CloseArray
    ensures At(ts, pos, Flatten(JArr(xs))) && |Flatten(JArr(xs))| == |FlattenAll(xs)| + 2
  {
    AtJoin(ts, pos + 1, FlattenAll(xs), [CloseArray]);
    AtJoin(ts, pos, [OpenArray], FlattenAll(xs) + [CloseArray]);
    ArrayFlattened(xs);
  }

  lemma ConsTokens(ts: seq<Token>, pos: nat, x: Json, rest: seq<Json>)
    requires At(ts, pos, Flatten(x)) && At(ts, pos + |Flatten(x)|, FlattenAll(rest))
    ensures At(ts, pos, FlattenAll([x] + rest)) && |FlattenAll([x] + rest)| == |Flatten(x)| + |FlattenAll(rest)|
  {
    AtJoin(ts, pos, Flatten(x), FlattenAll(rest));
    assert ([x] + rest)[1..] == rest;
  }

  lemma ArrayParsed(d: Defaults, ts: seq<Token>, pos: nat, parent: Option<string>)
    requires KindAt(ts, pos) == ArrayStart && ParseValue(d, ts, pos, parent).Ok?
    ensures pos < |ts| && ts[pos] == OpenArray && ParseElements(d, ts, pos + 1, 0, "", []).Ok?
    ensures var end := ParseElements(d, ts, pos + 1, 0, "", []).value.2;
            && end < |ts| && ts[end] == CloseArray
            && ParseValue(d, ts, pos, parent).value.0.kind == GroupKind && ParseValue(d, ts, pos, parent).value.1 == end + 1
  {
    hide ParseElements;
  }

  lemma {:induction false} ParsedIsAccepted(d: Defaults, ts: seq<Token>, pos: nat, parent: Option<string>) returns (v: Json)
    requires ParseValue(d, ts, pos, parent).Ok?
    ensures Accepts(v, parent.None?) && At(ts, pos, Flatten(v))
    ensures ParseValue(d, ts, pos, parent).value.1 == pos + |Flatten(v)|
    ensures ParseValue(d, ts, pos, parent).value.0.kind.ApplyGroupConfigKind? <==> ConfigElement(v)
    ensures ConfigElement(v) ==> ParseValue(d, ts, pos, parent).value.0.resource == Some(v.fields)
    decreases |ts| - pos, 0
  {
    hide *;
    if KindAt(ts, pos) == ArrayStart {
      ArrayParsed(d, ts, pos, parent);
      var xs := ElementsAreAccepted(d, ts, pos + 1, 0, "", []);
      v := JArr(xs);
      ArrayAccepted(xs, parent.None?);
      BracketTokens(ts, pos, xs);
    } else {
      v := LeafIsAccepted(d, ts, pos, parent);
    }
  }

  lemma ArrayAccepted(xs: seq<Json>, atRoot: bool)
    requires forall i :: 0 <= i < |xs| ==> Accepts(xs[i], false) && (ConfigElement(xs[i]) ==> i == 0 && ConfigPolicy(xs[i].fields).Ok?)
    ensures Accepts(JArr(xs), atRoot) && !ConfigElement(JArr(xs))
  {
  }

  lemma LeafIsAccepted(d: Defaults, ts: seq<Token>, pos: nat, parent: Option<string>) returns (v: Json)
    requires KindAt(ts, pos) != ArrayStart && ParseValue(d, ts, pos, parent).Ok?
    ensures Accepts(v, parent.None?) && At(ts, pos, Flatten(v))
    ensures ParseValue(d, ts, pos, parent).value.1 == pos + |Flatten(v)|
    ensures ParseValue(d, ts, pos, parent).value.0.kind.ApplyGroupConfigKind? <==> ConfigElement(v)
    ensures ConfigElement(v) ==> ParseValue(d, ts, pos, parent).value.0.resource == Some(v.fields)
  {
    assert ts[pos..pos + 1] == [ts[pos]];
    if ts[pos].NullToken? {
      v := JNull;
    } else {
      v := JObj(ts[pos].o);
      DefaultsDoNotMatter(d, ts[pos].o, parent.None?);
    }
  }

  lemma {:induction false} ElementsAreAccepted(d: Defaults, ts: seq<Token>, pos: nat, i: nat, policy: string, group: seq<Applier>)
    returns (xs: seq<Json>)
    requires pos <= |ts| && ParseElements(d, ts, pos, i, policy, group).Ok?
    ensures At(ts, pos, FlattenAll(xs)) && ParseElements(d, ts, pos, i, policy, group).value.2 == pos + |FlattenAll(xs)|
    ensures forall j :: 0 <= j < |xs| ==>
              Accepts(xs[j], false) && (ConfigElement(xs[j]) ==> i + j == 0 && ConfigPolicy(xs[j].fields).Ok?)
    decreases |ts| - pos, 1
  {
    hide Accepts, ParseElements, ParseValue, Flatten, FlattenAll, At, KindAt, ConfigPolicy;
    if KindAt(ts, pos) in {ArrayEnd, NoToken} {
      xs := [];
      NoElements(d, ts, pos, i, policy, group);
    } else {
      var policy', group' := NextElement(d, ts, pos, i, policy, group);
      var x := ParsedIsAccepted(d, ts, pos, Some(policy));
      var (elem, next) := ParseValue(d, ts, pos, Some(policy)).value;
      var rest := ElementsAreAccepted(d, ts, next, i + 1, policy', group');
      xs := [x] + rest;
      ConsTokens(ts, pos, x, rest);
    }
  }

  lemma NoElements(d: Defaults, ts: seq<Token>, pos: nat, i: nat, policy: string, group: seq<Applier>)
    requires pos <= |ts| && KindAt(ts, pos) in {ArrayEnd, NoToken}
    ensures At(ts, pos, FlattenAll([])) && ParseElements(d, ts, pos, i, policy, group) == Ok((policy, group, pos + |FlattenAll([])|))
  {
  }

  lemma NextElement(d: Defaults, ts: seq<Token>, pos: nat, i: nat, policy: string, group: seq<Applier>)
    returns (policy': string, group': seq<Applier>)
    requires pos <= |ts| && ParseElements(d, ts, pos, i, policy, group).Ok? && KindAt(ts, pos) !in {ArrayEnd, NoToken}
    ensures ParseValue(d, ts, pos, Some(policy)).Ok?
    ensures var (elem, next) := ParseValue(d, ts, pos, Some(policy)).value;
            && ParseElements(d, ts, next, i + 1, policy', group') == ParseElements(d, ts, pos, i, policy, group)
            && (elem.kind.ApplyGroupConfigKind? ==> i == 0 && ConfigPolicy(elem.resource.GetOr(map[])).Ok?)
  {
    hide ParseValue;
    var (elem, next) := ParseValue(d, ts, pos, Some(policy)).value;
    if elem.kind.ApplyGroupConfigKind? {
      var own := ConfigPolicy(elem.resource.GetOr(map[])).value;
      policy', group' := if own.Some? then own.value else policy, group;
    } else {
      policy', group' := policy, group + [elem];
    }
  }

  /**
   The parser accepts exactly the well-formed documents: it succeeds on a token stream if and only if
   one of them starts there, and then it has consumed exactly that one value and built its tree.
   */
  lemma ParserIsExact(d: Defaults, ts: seq<Token>, pos: nat, parent: Option<string>, a: Applier, end: nat)
    ensures ParseValue(d, ts, pos, parent) == Ok((a, end)) <==>
            exists v :: Accepts(v, parent.None?) && At(ts, pos, Flatten(v)) && end == pos + |Flatten(v)| &&
                        a == Build(d, v, parent.GetOr(""))
  {
    hide ParseValue, Accepts, Flatten, Build, At;
    if ParseValue(d, ts, pos, parent).Ok? {
      var v := ParsedIsAccepted(d, ts, pos, parent);
      AcceptedParses(d, ts, pos, v, parent);
    }
    forall v | Accepts(v, parent.None?) && At(ts, pos, Flatten(v))
      ensures ParseValue(d, ts, pos, parent) == Ok((Build(d, v, parent.GetOr("")), pos + |Flatten(v)|))
    {
      AcceptedParses(d, ts, pos, v, parent);
    }
  }

  // ---- what accepted trees look like ----

  /** No config nodes, no unknown kinds, no leaf without a resource, no policy outside the known ones. */
  predicate Sound(a: Applier) {
    && (a.kind.NoopKind? || a.kind.ApplyKind? || a.kind.DeleteKind? || a.kind.GroupKind?)
    && (a.kind.ApplyKind? ==> a.resource.Some? && a.applyOptions.Some?)
    && (a.kind.DeleteKind? ==> a.resource.Some? && a.deleteOptions.Some? && Strip(a.resource.value) == a.resource.value)
    && (a.kind.GroupKind? ==> a.errorPolicy in {"", "Continue", "Abort"})
    && (!a.kind.GroupKind? ==> a.group == [])
    && forall i :: 0 <= i < |a.group| ==> Sound(a.group[i])
  }

  lemma {:induction false} BuiltIsSound(d: Defaults, v: Json, parentExplicit: string)
    requires Accepts(v, false) && !ConfigElement(v) && parentExplicit in {"", "Continue", "Abort"}
    ensures Sound(Build(d, v, parentExplicit))
    decreases v, 0
  {
    match v
    case JObj(o) =>
      DefaultsDoNotMatter(d, o, false);
      StripKeepsIdentity(o);
    case JArr(xs) => AllBuiltAreSound(d, Members(xs), Explicit(xs));
    case _ =>
  }

  lemma {:induction false} AllBuiltAreSound(d: Defaults, xs: seq<Json>, own: string)
    requires forall i :: 0 <= i < |xs| ==> Accepts(xs[i], false) && !ConfigElement(xs[i])
    requires own in {"", "Continue", "Abort"}
    ensures forall i :: 0 <= i < |xs| ==> Sound(BuildAll(d, xs, own)[i])
    decreases xs
  {
    if xs != [] {
      BuiltIsSound(d, xs[0], own);
      AllBuiltAreSound(d, xs[1..], own);
    }
  }

  /** Every tree the parser accepts at the root is sound. */
  lemma ParsedTreesAreSound(d: Defaults, ts: seq<Token>)
    requires ParseValue(d, ts, 0, None).Ok?
    ensures Sound(ParseValue(d, ts, 0, None).value.0)
  {
    var v := ParsedIsAccepted(d, ts, 0, None);
    AcceptedParses(d, ts, 0, v, None);
    assert !ConfigElement(v);
    assert Accepts(v, false);
    BuiltIsSound(d, v, "");
  }

  // ---- acceptance said without the parser ----

  datatype Shape = Text | Integer | Boolean | KnownPolicy

  predicate Fits(v: Json, shape: Shape) {
    match shape
    case Text => v.JStr?
    case Integer => v.JInt?
    case Boolean => v.JBool?
    case KnownPolicy => v == JStr("Continue") || v == JStr("Abort")
  }

  /** A field of a section is missing or fits; a section may be missing or null but nothing other than an object. */
  predicate Typed(o: Object, section: string, field: string, shape: Shape) {
    section !in o || o[section].JNull? || (o[section].JObj? && (field in o[section].fields ==> Fits(o[section].fields[field], shape)))
  }

  predicate MarkedForDeletion(o: Object) {
    DELETION_KEY in o && o[DELETION_KEY].JObj? && "delete" in o[DELETION_KEY].fields && o[DELETION_KEY].fields["delete"] == JBool(true)
  }

  predicate ReadableDeletion(o: Object) {
    && Typed(o, DELETION_KEY, "gracePeriodSeconds", Integer)
    && Typed(o, DELETION_KEY, "propagationPolicy", Text)
    && Typed(o, DELETION_KEY, "preconditionUID", Text)
    && Typed(o, DELETION_KEY, "preconditionResourceVersion", Text)
  }

  predicate ReadableOptions(o: Object) {
    && Typed(o, OPTIONS_KEY, "fieldManager", Text)
    && Typed(o, OPTIONS_KEY, "fieldManagerSuffix", Text)
    && Typed(o, OPTIONS_KEY, "force", Boolean)
    && Typed(o, OPTIONS_KEY, "subResource", Text)
  }

  /** Apply options of an object marked for deletion are not looked at, nor deletion options of an unmarked one. */
  predicate ReadableObject(o: Object, atRoot: bool) {
    && HasKind(o)
    && if IsConfig(o) then !atRoot
       else Typed(o, DELETION_KEY, "delete", Boolean) && if MarkedForDeletion(o) then ReadableDeletion(o) else ReadableOptions(o)
  }

  predicate ReadablePolicy(o: Object) {
    Typed(o, "spec", "errorPolicy", KnownPolicy)
  }

  /** The documents the language of templates allows. */
  predicate WellFormed(v: Json, atRoot: bool) {
    match v
    case JNull => true
    case JObj(o) => ReadableObject(o, atRoot)
    case JArr(xs) =>
      forall i :: 0 <= i < |xs| ==> WellFormed(xs[i], false) && (ConfigElement(xs[i]) ==> i == 0 && ReadablePolicy(xs[i].fields))
    case _ => false
  }

  lemma ParsedObjectIsReadable(d: Defaults, o: Object, atRoot: bool)
    ensures ParseObject(d, o, atRoot).Ok? <==> ReadableObject(o, atRoot)
    ensures ParseObject(d, o, atRoot).Ok? && !IsConfig(o) ==>
              (ParseObject(d, o, atRoot).value.kind.DeleteKind? <==> MarkedForDeletion(o))
  {
    hide GvkOf, Strip;
    DeletionIsReadable(o);
    OptionsAreReadable(d, o);
    hide Typed, MarkedForDeletion, ReadableDeletion, ReadableOptions, DeleteOptionsFromObject, PatchOptionsFromObject;
  }

  lemma DeletionIsReadable(o: Object)
    ensures var r := DeleteOptionsFromObject(o);
            && (r.Ok? <==> Typed(o, DELETION_KEY, "delete", Boolean) && (MarkedForDeletion(o) ==> ReadableDeletion(o)))
            && (r.Ok? ==> (r.value.Some? <==> MarkedForDeletion(o)))
  {
  }

  lemma OptionsAreReadable(d: Defaults, o: Object)
    ensures PatchOptionsFromObject(d, o).Ok? <==> ReadableOptions(o)
  {
  }

  /** A field of a section, if there is one. */
  function FieldOf(o: Object, section: string, field: string): Option<Json> {
    if section in o && o[section].JObj? && field in o[section].fields then Some(o[section].fields[field]) else None
  }

  function TextOf(v: Option<Json>, default: string): string {
    match v
    case Some(JStr(s)) => s
    case _ => default
  }

  function OptionalText(v: Option<Json>): Option<string> {
    match v
    case Some(JStr(s)) => Some(s)
    case _ => None
  }

  /**
   What becomes of an object that is applied: itself without the options key, and options in which its own
   words come before those of the ManagedResource and an empty field manager gives way to the fallback.
   */
  lemma AppliedObjectCarries(d: Defaults, o: Object, atRoot: bool)
    requires ParseObject(d, o, atRoot).Ok? && !IsConfig(o) && !MarkedForDeletion(o)
    ensures var a := ParseObject(d, o, atRoot).value;
            && a.kind.ApplyKind? && a.deleteOptions == None && a.group == [] && a.applyOptions.Some?
            && a.resource == Some(o - {OPTIONS_KEY})
            && a.subResource == TextOf(FieldOf(o, OPTIONS_KEY, "subResource"), "")
            && (match FieldOf(o, OPTIONS_KEY, "force")
                case Some(JBool(b)) => a.applyOptions.value.force == b
                case _ => a.applyOptions.value.force == d.force)
            && var manager := TextOf(FieldOf(o, OPTIONS_KEY, "fieldManager"), d.fieldManager);
               var suffix := TextOf(FieldOf(o, OPTIONS_KEY, "fieldManagerSuffix"), "");
               && (manager != "" ==> a.applyOptions.value.fieldManager == manager + suffix)
               && (manager == "" ==> a.applyOptions.value.fieldManager == d.fieldManagerFallback + suffix)
  {
    DeletionIsReadable(o);
    PatchOptionsCarry(d, o);
    hide PatchOptionsFromObject, DeleteOptionsFromObject, MarkedForDeletion, ReadableDeletion, IsConfig, Strip, HasKind;
  }

  lemma PatchOptionsCarry(d: Defaults, o: Object)
    requires PatchOptionsFromObject(d, o).Ok?
    ensures var (options, sub, rest) := PatchOptionsFromObject(d, o).value;
            && rest == o - {OPTIONS_KEY} && sub == TextOf(FieldOf(o, OPTIONS_KEY, "subResource"), "")
            && (match FieldOf(o, OPTIONS_KEY, "force") case Some(JBool(b)) => options.force == b case _ => options.force == d.force)
            && var manager := TextOf(FieldOf(o, OPTIONS_KEY, "fieldManager"), d.fieldManager);
               options.fieldManager ==
               (if manager == "" then d.fieldManagerFallback else manager) + TextOf(FieldOf(o, OPTIONS_KEY, "fieldManagerSuffix"), "")
  {
  }

  /** What becomes of an object that is marked for deletion: its identity, and each deletion option it gives. */
  lemma DeletedObjectCarries(d: Defaults, o: Object, atRoot: bool)
    requires ParseObject(d, o, atRoot).Ok? && !IsConfig(o) && MarkedForDeletion(o)
    ensures var a := ParseObject(d, o, atRoot).value;
            && a.kind.DeleteKind? && a.applyOptions == None && a.group == [] && a.resource.Some? && a.deleteOptions.Some?
            && GvkOf(a.resource.value) == GvkOf(o)
            && MetaField(a.resource.value, "namespace") == MetaField(o, "namespace")
            && MetaField(a.resource.value, "name") == MetaField(o, "name")
            && a.resource.value.Keys <= {"apiVersion", "kind", "metadata"}
            && var x := a.deleteOptions.value;
               && (match FieldOf(o, DELETION_KEY, "gracePeriodSeconds")
                   case Some(JInt(i)) => x.gracePeriodSeconds == Some(i)
                   case _ => x.gracePeriodSeconds == None)
               && x.propagationPolicy == OptionalText(FieldOf(o, DELETION_KEY, "propagationPolicy"))
               && x.preconditionUID == OptionalText(FieldOf(o, DELETION_KEY, "preconditionUID"))
               && x.preconditionResourceVersion == OptionalText(FieldOf(o, DELETION_KEY, "preconditionResourceVersion"))
  {
    DeletionIsReadable(o);
    DeletionOptionsCarry(o);
    StripKeepsIdentity(o);
    hide PatchOptionsFromObject, DeleteOptionsFromObject, MarkedForDeletion, ReadableDeletion, IsConfig, Strip, HasKind, GvkOf, MetaField;
    hide FieldOf, OptionalText;
  }

  lemma DeletionOptionsCarry(o: Object)
    requires DeleteOptionsFromObject(o).Ok? && DeleteOptionsFromObject(o).value.Some?
    ensures var x := DeleteOptionsFromObject(o).value.value;
            && (match FieldOf(o, DELETION_KEY, "gracePeriodSeconds")
                case Some(JInt(i)) => x.gracePeriodSeconds == Some(i)
                case _ => x.gracePeriodSeconds == None)
            && x.propagationPolicy == OptionalText(FieldOf(o, DELETION_KEY, "propagationPolicy"))
            && x.preconditionUID == OptionalText(FieldOf(o, DELETION_KEY, "preconditionUID"))
            && x.preconditionResourceVersion == OptionalText(FieldOf(o, DELETION_KEY, "preconditionResourceVersion"))
  {
  }

  /** A readable config sets the policy it names, or none. */
  lemma PolicyIsReadable(o: Object)
    ensures ConfigPolicy(o).Ok? <==> ReadablePolicy(o)
    ensures ConfigPolicy(o).Ok? ==> ConfigPolicy(o).value == OptionalText(FieldOf(o, "spec", "errorPolicy"))
  {
  }

  /** The document stands alone and is parsed to this tree. */
  predicate Parses(d: Defaults, v: Json, parent: Option<string>, a: Applier) {
    ParseValue(d, Flatten(v), 0, parent) == Ok((a, |Flatten(v)|))
  }

  lemma AcceptedStandsAlone(d: Defaults, v: Json, parent: Option<string>)
    requires Accepts(v, parent.None?)
    ensures Parses(d, v, parent, Build(d, v, parent.GetOr("")))
  {
    hide ParseValue, Build, Flatten, Accepts;
    assert At(Flatten(v), 0, Flatten(v));
    AcceptedParses(d, Flatten(v), 0, v, parent);
  }

  /** The policy in the words of an array's first element, if that is a config. */
  function OwnPolicy(xs: seq<Json>): string {
    if xs != [] && ConfigElement(xs[0]) then TextOf(FieldOf(xs[0].fields, "spec", "errorPolicy"), "") else ""
  }

  /**
   The tree of an array is a group of the trees of its elements but the config, each parsed as if it stood
   alone, in order. It has the policy its config names, or else the one its parent had named by then, and
   its elements know its own policy only. A null is a tree that does nothing.
   */
  lemma ArrayIsItsElements(d: Defaults, xs: seq<Json>, parent: Option<string>) returns (a: Applier)
    requires Accepts(JArr(xs), parent.None?)
    ensures Parses(d, JArr(xs), parent, a) && Parses(d, JNull, parent, BLANK)
    ensures a.kind.GroupKind? && a.errorPolicy == if OwnPolicy(xs) != "" then OwnPolicy(xs) else parent.GetOr("")
    ensures a.resource == None && a.applyOptions == None && a.deleteOptions == None
    ensures var skip := if xs != [] && ConfigElement(xs[0]) then 1 else 0;
            && |a.group| == |xs| - skip
            && forall i :: 0 <= i < |a.group| ==> Parses(d, xs[skip + i], Some(OwnPolicy(xs)), a.group[i])
  {
    AcceptedStandsAlone(d, JArr(xs), parent);
    AcceptedStandsAlone(d, JNull, parent);
    a := Build(d, JArr(xs), parent.GetOr(""));
    AcceptedArray(xs);
    OwnIsExplicit(xs);
    var ms := Members(xs);
    hide ParseValue, Accepts, Parses, ConfigElement, Explicit, FieldOf;
    forall i | 0 <= i < |ms|
      ensures Parses(d, ms[i], Some(OwnPolicy(xs)), a.group[i])
    {
      BuildAllAt(d, ms, Explicit(xs), i);
      AcceptedStandsAlone(d, ms[i], Some(OwnPolicy(xs)));
    }
  }

  lemma OwnIsExplicit(xs: seq<Json>)
    requires Accepts(JArr(xs), false)
    ensures Explicit(xs) == OwnPolicy(xs)
  {
    if xs != [] && ConfigElement(xs[0]) { PolicyIsReadable(xs[0].fields); }
  }

  /** What the parser accepts, as a language: kinds, option types, config only first and never at the root, known policies. */
  lemma {:induction false} AcceptedIsWellFormed(v: Json, atRoot: bool)
    ensures Accepts(v, atRoot) <==> WellFormed(v, atRoot)
  {
    match v
    case JObj(o) => ParsedObjectIsReadable(Defaults("", false, ""), o, atRoot);
    case JArr(xs) =>
      forall i | 0 <= i < |xs|
        ensures Accepts(xs[i], false) <==> WellFormed(xs[i], false)
        ensures ConfigElement(xs[i]) ==> (ConfigPolicy(xs[i].fields).Ok? <==> ReadablePolicy(xs[i].fields))
      {
        AcceptedIsWellFormed(xs[i], false);
        if ConfigElement(xs[i]) { PolicyIsReadable(xs[i].fields); }
      }
    case _ =>
  }
}
