/**
 When the inheritance rule matters to the cluster: for which documents some client can tell the parser's
 tree from the tree with nearest-ancestor policies, by the calls it receives or the errors returned.
 */
module ApplyGroupDivergence {
  import opened Wrappers
  import opened Unstructured
  import opened ApplyGroup
  import opened ApplyGroupGrammar
  import opened ApplyGroupInheritance
  import opened ApplyGroupExecution

  // ---- two trees that differ in policies only ----

  ghost predicate SameButPolicies(a: Applier, b: Applier) {
    && a.(errorPolicy := "", group := []) == b.(errorPolicy := "", group := [])
    && |a.group| == |b.group|
    && forall i :: 0 <= i < |a.group| ==> SameButPolicies(a.group[i], b.group[i])
  }

  /** There is something to call in the tree. */
  predicate Bears(a: Applier) { IsLeaf(a) || exists i :: 0 <= i < |a.group| && Bears(a.group[i]) }

  predicate TwoBear(group: seq<Applier>) { exists i, j :: 0 <= i < j < |group| && Bears(group[i]) && Bears(group[j]) }

  /** Some group stops on errors in one tree only, and has a member to call after another one. */
  ghost predicate Diverges(a: Applier, b: Applier)
    requires SameButPolicies(a, b)
  {
    || (a.kind.GroupKind? && Aborts(a.errorPolicy) != Aborts(b.errorPolicy) && TwoBear(a.group))
    || exists i :: 0 <= i < |a.group| && Diverges(a.group[i], b.group[i])
  }

  // ---- without divergence nobody can tell ----

  lemma {:induction false} NothingToCall(a: Applier, respond: nat -> Outcome, n: nat)
    requires Sound(a) && !Bears(a)
    ensures Exec(a, respond, n) == ([], [])
    decreases a, 0
  {
    if a.kind.GroupKind? { NoMemberToCall(a.errorPolicy, a.group, 0, respond, n); }
  }

  lemma {:induction false} NoMemberToCall(policy: string, group: seq<Applier>, i: nat, respond: nat -> Outcome, n: nat)
    requires i <= |group| && forall j :: i <= j < |group| ==> Sound(group[j]) && !Bears(group[j])
    ensures ExecMembers(policy, group, i, respond, n) == ([], [])
    decreases group, |group| - i
  {
    if i < |group| {
      NothingToCall(group[i], respond, n);
      NoMemberToCall(policy, group, i + 1, respond, n);
      assert Prefixed(i, []) == [];
    }
  }

  lemma {:induction false} SameExecution(a: Applier, b: Applier, respond: nat -> Outcome, n: nat)
    requires Sound(a) && Sound(b) && SameButPolicies(a, b) && !Diverges(a, b)
    ensures Exec(a, respond, n) == Exec(b, respond, n)
    decreases a, 0
  {
    assert a.kind == b.kind;
    if a.kind.GroupKind? {
      SameMembers(a, b, 0, respond, n);
    }
  }

  lemma {:induction false} SameMembers(a: Applier, b: Applier, i: nat, respond: nat -> Outcome, n: nat)
    requires Sound(a) && Sound(b) && SameButPolicies(a, b) && !Diverges(a, b) && a.kind.GroupKind? && i <= |a.group|
    ensures ExecMembers(a.errorPolicy, a.group, i, respond, n) == ExecMembers(b.errorPolicy, b.group, i, respond, n)
    decreases a.group, |a.group| - i
  {
    hide *;
    SoundMembers(a);
    SharedMembers(a, b);
    SoundMembers(b);
    if i == |a.group| {
      MembersEnd(a.errorPolicy, a.group, respond, n);
      MembersEnd(b.errorPolicy, b.group, respond, n);
    } else {
      SameExecution(a.group[i], b.group[i], respond, n);
      var sub, rest := MemberTurn(a, i, respond, n);
      var _, _ := MemberTurn(b, i, respond, n);
      SameMembers(a, b, i + 1, respond, n + |sub|);
      if Aborts(a.errorPolicy) != Aborts(b.errorPolicy) { LastToCall(a, i, respond, n, |sub|); }
      SameTurn(a.errorPolicy, b.errorPolicy, Prefixed(i, sub), Exec(a.group[i], respond, n).1, rest);
    }
  }

  lemma SharedMembers(a: Applier, b: Applier)
    requires SameButPolicies(a, b) && !Diverges(a, b) && a.kind.GroupKind?
    ensures b.kind.GroupKind? && |a.group| == |b.group|
    ensures forall i :: 0 <= i < |a.group| ==> SameButPolicies(a.group[i], b.group[i]) && !Diverges(a.group[i], b.group[i])
    ensures Aborts(a.errorPolicy) != Aborts(b.errorPolicy) ==> !TwoBear(a.group)
  {
    assert a.kind == a.(errorPolicy := "", group := []).kind == b.kind;
  }

  /** What a turn of the member loop makes of a member's calls and errors and of what comes after it. */
  function Turn(policy: string, calls: seq<Issue>, errors: seq<ApplyError>, rest: (seq<Issue>, seq<ApplyError>)): (seq<Issue>, seq<ApplyError>) {
    if errors != [] && policy == "Abort" then (calls, errors)
    else Joined(calls, if policy == "" || policy == "Continue" then errors else [], rest)
  }

  lemma SameTurn(p: string, q: string, calls: seq<Issue>, errors: seq<ApplyError>, rest: (seq<Issue>, seq<ApplyError>))
    requires p in {"", "Continue", "Abort"} && q in {"", "Continue", "Abort"}
    requires Aborts(p) != Aborts(q) && errors != [] ==> rest == ([], [])
    ensures Turn(p, calls, errors, rest) == Turn(q, calls, errors, rest)
  {
    assert calls + [] == calls && errors + [] == errors;
  }

  lemma SoundMembers(a: Applier)
    requires Sound(a) && a.kind.GroupKind?
    ensures a.errorPolicy in {"", "Continue", "Abort"} && forall j :: 0 <= j < |a.group| ==> Sound(a.group[j])
  {
  }

  /** In a group with one member to call nothing comes after its errors. */
  lemma LastToCall(a: Applier, i: nat, respond: nat -> Outcome, n: nat, calls: nat)
    requires Sound(a) && a.kind.GroupKind? && i < |a.group| && !TwoBear(a.group)
    ensures Exec(a.group[i], respond, n).1 != [] ==> ExecMembers(a.errorPolicy, a.group, i + 1, respond, n + calls) == ([], [])
  {
    SoundMembers(a);
    hide Exec, ExecMembers, Bears, Sound;
    if Bears(a.group[i]) {
      NoMemberToCall(a.errorPolicy, a.group, i + 1, respond, n + calls);
    } else {
      NothingToCall(a.group[i], respond, n);
    }
  }

  // ---- with divergence somebody can tell ----

  /** As long as the first k calls succeed, the trees issue the same calls; k is the first that may differ in outcome. */
  ghost predicate SameUpTo(t: seq<Issue>, u: seq<Issue>, k: nat) {
    if |t| <= k then t == u else |u| > k && t[k].path == u[k].path
  }

  /** The same for traces with their errors: before the first failure there are none. */
  ghost predicate AlikeUpTo(x: (seq<Issue>, seq<ApplyError>), y: (seq<Issue>, seq<ApplyError>), k: nat) {
    SameUpTo(x.0, y.0, k) && (|x.0| <= k ==> x.1 == [] && y.1 == [])
  }

  predicate Succeeds(respond: nat -> Outcome, n: nat, k: nat) { forall i :: n <= i < n + k ==> respond(i) == Success }

  lemma {:induction false} SameUntilFailure(a: Applier, b: Applier, r: nat -> Outcome, s: nat -> Outcome, n: nat, k: nat)
    requires Sound(a) && Sound(b) && SameButPolicies(a, b) && Succeeds(r, n, k) && Succeeds(s, n, k)
    ensures AlikeUpTo(Exec(a, r, n), Exec(b, s, n), k)
    decreases a, 0
  {
    assert a.(errorPolicy := "", group := []).kind == b.kind;
    if a.kind.GroupKind? {
      SameMembersUntilFailure(a, b, 0, r, s, n, k);
    } else {
      assert a.(errorPolicy := "", group := []).resource == b.resource;
    }
  }

  lemma {:induction false} SameMembersUntilFailure(a: Applier, b: Applier, i: nat, r: nat -> Outcome, s: nat -> Outcome, n: nat, k: nat)
    requires Sound(a) && Sound(b) && SameButPolicies(a, b) && a.kind.GroupKind? && b.kind.GroupKind? && i <= |a.group|
    requires Succeeds(r, n, k) && Succeeds(s, n, k)
    ensures AlikeUpTo(ExecMembers(a.errorPolicy, a.group, i, r, n), ExecMembers(b.errorPolicy, b.group, i, s, n), k)
    decreases a.group, |a.group| - i
  {
    hide *;
    SoundMembers(a);
    SoundMembers(b);
    SameMembersButPolicies(a, b);
    if i == |a.group| {
      MembersEnd(a.errorPolicy, a.group, r, n);
      MembersEnd(b.errorPolicy, b.group, s, n);
      NothingIsAlike(k);
    } else {
      SameUntilFailure(a.group[i], b.group[i], r, s, n, k);
      var sub, rest := MemberTurn(a, i, r, n);
      var subB, restB := MemberTurn(b, i, s, n);
      if |sub| <= k {
        SucceedsLater(r, s, n, k, |sub|);
        SameTraces(Exec(a.group[i], r, n), Exec(b.group[i], s, n), k);
        SameMembersUntilFailure(a, b, i + 1, r, s, n + |sub|, k - |sub|);
      }
      TurnUntilFailure(a.errorPolicy, b.errorPolicy, i, Exec(a.group[i], r, n), Exec(b.group[i], s, n), rest, restB, k);
    }
  }

  lemma SameMembersButPolicies(a: Applier, b: Applier)
    requires SameButPolicies(a, b)
    ensures |a.group| == |b.group| && forall i :: 0 <= i < |a.group| ==> SameButPolicies(a.group[i], b.group[i])
  {
  }

  lemma NothingIsAlike(k: nat)
    ensures AlikeUpTo(([], []), ([], []), k)
  {
  }

  lemma SucceedsLater(r: nat -> Outcome, s: nat -> Outcome, n: nat, k: nat, l: nat)
    requires Succeeds(r, n, k) && Succeeds(s, n, k) && l <= k
    ensures Succeeds(r, n + l, k - l) && Succeeds(s, n + l, k - l)
  {
  }

  lemma SameTraces(x: (seq<Issue>, seq<ApplyError>), y: (seq<Issue>, seq<ApplyError>), k: nat)
    requires AlikeUpTo(x, y, k) && |x.0| <= k
    ensures x.0 == y.0
  {
  }

  lemma MemberTurn(a: Applier, i: nat, respond: nat -> Outcome, n: nat) returns (sub: seq<Issue>, rest: (seq<Issue>, seq<ApplyError>))
    requires i < |a.group|
    ensures sub == Exec(a.group[i], respond, n).0 && rest == ExecMembers(a.errorPolicy, a.group, i + 1, respond, n + |sub|)
    ensures ExecMembers(a.errorPolicy, a.group, i, respond, n) == Turn(a.errorPolicy, Prefixed(i, sub), Exec(a.group[i], respond, n).1, rest)
  {
    hide Exec, ExecMembers, Joined, Prefixed;
    sub, rest := MembersStep(a.errorPolicy, a.group, i, respond, n);
  }

  lemma {:induction false} SameAsItself(a: Applier)
    ensures SameButPolicies(a, a)
  {
    forall i | 0 <= i < |a.group|
      ensures SameButPolicies(a.group[i], a.group[i])
    {
      SameAsItself(a.group[i]);
    }
  }

  lemma TurnUntilFailure(
    p: string, q: string, i: nat, x: (seq<Issue>, seq<ApplyError>), y: (seq<Issue>, seq<ApplyError>),
    rest: (seq<Issue>, seq<ApplyError>), restB: (seq<Issue>, seq<ApplyError>), k: nat)
    requires AlikeUpTo(x, y, k) && (|x.0| <= k ==> AlikeUpTo(rest, restB, k - |x.0|))
    ensures AlikeUpTo(Turn(p, Prefixed(i, x.0), x.1, rest), Turn(q, Prefixed(i, y.0), y.1, restB), k)
  {
  }

  // ---- the client that fails one call ----

  function FailAt(k: nat): nat -> Outcome { n => if n == k then Failure("") else Success }

  const NO_FAILURE: nat -> Outcome := n => Success

  /** Failing only call k, only that call's node fails. */
  lemma OneFailure(a: Applier, k: nat, q: Path)
    requires k < |Exec(a, FailAt(k), 0).0| && Exec(a, FailAt(k), 0).0[k].path == q
    ensures FailedPaths(Exec(a, FailAt(k), 0).0) == {q}
  {
    var trace := Exec(a, FailAt(k), 0).0;
    forall l | 0 <= l < |trace|
      ensures trace[l].Failed() <==> l == k
    {
      IssuesAreLeafCalls(a, FailAt(k), 0, l);
    }
  }

  lemma AllIssued(a: Applier, p: Path)
    requires Sound(a) && LeafAt(a, p)
    ensures Issued(Exec(a, NO_FAILURE, 0).0, p)
  {
    var trace := Exec(a, NO_FAILURE, 0).0;
    forall l | 0 <= l < |trace|
      ensures !trace[l].Failed()
    {
      IssuesAreLeafCalls(a, NO_FAILURE, 0, l);
    }
    assert FailedPaths(trace) == {};
    SkippedIffAborted(a, NO_FAILURE, 0, p);
    NothingFailedNothingSkipped(a, p);
  }

  /** One failed node below member i of a group keeps a node below a later member from being called exactly if the group aborts. */
  lemma {:induction false} SkippedByOne(a: Applier, g: Path, i: nat, j: nat, q: Path, p: Path)
    requires NodeAt(a, g).Some? && NodeAt(a, g + [j] + p).Some? && i < j
    ensures Skipped(a, {g + [i] + q}, g + [j] + p) <==> NodeAt(a, g).value.errorPolicy == "Abort"
    decreases |g|
  {
    var failed, path := {g + [i] + q}, g + [j] + p;
    if g == [] {
      assert path[0] == j && path[1..] == p && (g + [i] + q)[0] == i;
      assert Under(failed, j) == {};
      assert j < |a.group|;
      NothingFailedNothingSkipped(a.group[j], p);
      assert g + [i] + q in failed;
    } else {
      var h, rest := g[0], g[1..];
      assert path[0] == h && path[1..] == rest + [j] + p;
      assert (g + [i] + q)[0] == h && (g + [i] + q)[1..] == rest + [i] + q;
      assert Under(failed, h) == {rest + [i] + q};
      SkippedByOne(a.group[h], rest, i, j, q, p);
    }
  }

  /** Two leaves below an earlier and a later member of a group. */
  predicate Around(a: Applier, g: Path, i: nat, j: nat, q: Path, p: Path) {
    && NodeAt(a, g).Some? && NodeAt(a, g).value.kind.GroupKind? && i < j
    && LeafAt(a, g + [i] + q) && LeafAt(a, g + [j] + p)
  }

  lemma {:induction false} SameNodes(a: Applier, b: Applier, p: Path)
    requires SameButPolicies(a, b)
    ensures NodeAt(a, p).Some? <==> NodeAt(b, p).Some?
    ensures NodeAt(a, p).Some? ==> SameButPolicies(NodeAt(a, p).value, NodeAt(b, p).value)
    ensures LeafAt(a, p) <==> LeafAt(b, p)
    decreases |p|
  {
    if p != [] && p[0] < |a.group| {
      SameNodes(a.group[p[0]], b.group[p[0]], p[1..]);
    } else if p == [] {
      assert a.(errorPolicy := "", group := []).kind == b.kind;
    }
  }

  /**
   A client that fails one leaf below a group, and nothing else, gets a later leaf of the group's
   called exactly if the group does not abort.
   */
  lemma OneFailureTells(a: Applier, b: Applier, g: Path, i: nat, j: nat, q: Path, p: Path) returns (k: nat)
    requires Sound(a) && Sound(b) && SameButPolicies(a, b) && Around(a, g, i, j, q, p)
    ensures FailedPaths(Exec(a, FailAt(k), 0).0) == FailedPaths(Exec(b, FailAt(k), 0).0) == {g + [i] + q}
    ensures Issued(Exec(a, FailAt(k), 0).0, g + [j] + p) <==> !Aborts(NodeAt(a, g).value.errorPolicy)
    ensures NodeAt(b, g).Some? && (Issued(Exec(b, FailAt(k), 0).0, g + [j] + p) <==> !Aborts(NodeAt(b, g).value.errorPolicy))
  {
    var first, later := g + [i] + q, g + [j] + p;
    SameNodes(a, b, g);
    SameNodes(a, b, later);
    SameAsItself(a);
    AllIssued(a, first);
    var all := Exec(a, NO_FAILURE, 0).0;
    k :| 0 <= k < |all| && Paths(all)[k] == first;
    hide Exec, Sound, SameButPolicies, Skipped, FailedPaths, Issued;
    SameUntilFailure(a, a, NO_FAILURE, FailAt(k), 0, k);
    SameUntilFailure(a, b, NO_FAILURE, FailAt(k), 0, k);
    OneFailure(a, k, first);
    OneFailure(b, k, first);
    SkippedIffAborted(a, FailAt(k), 0, later);
    SkippedIffAborted(b, FailAt(k), 0, later);
    SkippedByOne(a, g, i, j, q, p);
    SkippedByOne(b, g, i, j, q, p);
  }

  lemma {:induction false} LeafBelow(a: Applier) returns (p: Path)
    requires Bears(a)
    ensures LeafAt(a, p)
  {
    if IsLeaf(a) {
      p := [];
    } else {
      var i :| 0 <= i < |a.group| && Bears(a.group[i]);
      var rest := LeafBelow(a.group[i]);
      p := [i] + rest;
      NodeBelow(a, i, rest);
    }
  }

  lemma {:induction false} DivergencePoint(a: Applier, b: Applier) returns (g: Path, i: nat, j: nat, q: Path, p: Path)
    requires SameButPolicies(a, b) && Diverges(a, b)
    ensures Around(a, g, i, j, q, p) && NodeAt(b, g).Some?
    ensures Aborts(NodeAt(a, g).value.errorPolicy) != Aborts(NodeAt(b, g).value.errorPolicy)
  {
    if a.kind.GroupKind? && Aborts(a.errorPolicy) != Aborts(b.errorPolicy) && TwoBear(a.group) {
      var k: nat, l: nat :| k < l < |a.group| && Bears(a.group[k]) && Bears(a.group[l]);
      g, i, j := [], k, l;
      q := LeafBelow(a.group[i]);
      p := LeafBelow(a.group[j]);
      assert [] + [i] + q == [i] + q && [] + [j] + p == [j] + p;
      NodeBelow(a, i, q);
      NodeBelow(a, j, p);
    } else {
      var h :| 0 <= h < |a.group| && Diverges(a.group[h], b.group[h]);
      var rest;
      rest, i, j, q, p := DivergencePoint(a.group[h], b.group[h]);
      g := [h] + rest;
      NodeBelow(a, h, rest);
      NodeBelow(b, h, rest);
      assert g + [i] + q == [h] + (rest + [i] + q) && g + [j] + p == [h] + (rest + [j] + p);
      NodeBelow(a, h, rest + [i] + q);
      NodeBelow(a, h, rest + [j] + p);
    }
  }

  /** This client can tell the trees apart, by the calls it gets or by the errors returned. */
  ghost predicate Tells(respond: nat -> Outcome, n: nat, a: Applier, b: Applier) { Exec(a, respond, n) != Exec(b, respond, n) }

  /** Some client can tell two trees that differ in policies only if and only if they diverge. */
  lemma ToldApartIff(a: Applier, b: Applier)
    requires Sound(a) && Sound(b) && SameButPolicies(a, b)
    ensures (exists respond, n :: Tells(respond, n, a, b)) <==> Diverges(a, b)
  {
    if Diverges(a, b) {
      var g, i, j, q, p := DivergencePoint(a, b);
      var k := OneFailureTells(a, b, g, i, j, q, p);
      assert Tells(FailAt(k), 0, a, b);
    } else {
      forall respond: nat -> Outcome, n: nat
        ensures !Tells(respond, n, a, b)
      {
        SameExecution(a, b, respond, n);
      }
    }
  }

  // ---- in terms of documents ----

  /** There is an object in the document, group configs apart. */
  predicate Mentions(v: Json) {
    v.JObj? || (v.JArr? && exists i :: 0 <= i < |Members(v.items)| && Mentions(Members(v.items)[i]))
  }

  predicate MentionsTwo(xs: seq<Json>) { exists i, j :: 0 <= i < j < |xs| && Mentions(xs[i]) && Mentions(xs[j]) }

  /** How many bare arrays lie between an array and the policy of its nearest ancestor, counting itself, if that policy is Abort. */
  function Since(xs: seq<Json>, since: Option<nat>): Option<nat> {
    if Explicit(xs) == "Abort" then Some(0)
    else if Explicit(xs) != "" || since.None? then None
    else Some(since.value + 1)
  }

  /**
   Some array is the second bare one or a deeper one below an Abort policy, with only bare arrays
   between, and has an object to call after another one.
   */
  predicate Unheard(v: Json, since: Option<nat>) {
    v.JArr? && var depth := Since(v.items, since);
    || (depth.Some? && depth.value >= 2 && MentionsTwo(Members(v.items)))
    || exists i :: 0 <= i < |Members(v.items)| && Unheard(Members(v.items)[i], depth)
  }

  /** What parser and nearest-ancestor rule hand down at a distance from an Abort policy. */
  predicate HandedDown(since: Option<nat>, parentExplicit: string, inherited: string) {
    && parentExplicit in {"", "Continue", "Abort"} && inherited in {"", "Continue", "Abort"}
    && (inherited == "Abort" <==> since.Some?)
    && (parentExplicit == "Abort" <==> since == Some(0))
    && (since.Some? && since.value > 0 ==> parentExplicit == "")
  }

  lemma {:induction false} NearestIsSound(d: Defaults, v: Json, inherited: string)
    requires Accepts(v, false) && !ConfigElement(v) && inherited in {"", "Continue", "Abort"}
    ensures Sound(BuildNearest(d, v, inherited))
    decreases v
  {
    if v.JArr? {
      var own, ms := Explicit(v.items), Members(v.items);
      var policy := if own != "" then own else inherited;
      forall i | 0 <= i < |ms|
        ensures Sound(BuildAllNearest(d, ms, policy)[i])
      {
        assert ms[i] in v.items;
        NearestIsSound(d, ms[i], policy);
        BuildAllNearestAt(d, ms, policy, i);
      }
    } else {
      BuiltIsSound(d, v, inherited);
    }
  }

  lemma {:induction false} TreesOfOneDocument(d: Defaults, v: Json, parentExplicit: string, inherited: string)
    requires Accepts(v, false) && !ConfigElement(v)
    ensures SameButPolicies(Build(d, v, parentExplicit), BuildNearest(d, v, inherited))
    decreases v
  {
    if v.JArr? {
      var own, ms := Explicit(v.items), Members(v.items);
      var policy := if own != "" then own else inherited;
      forall i | 0 <= i < |ms|
        ensures SameButPolicies(BuildAll(d, ms, own)[i], BuildAllNearest(d, ms, policy)[i])
      {
        assert ms[i] in v.items;
        TreesOfOneDocument(d, ms[i], own, policy);
        BuildAllAt(d, ms, own, i);
        BuildAllNearestAt(d, ms, policy, i);
      }
    } else {
      SameAsItself(Build(d, v, parentExplicit));
    }
  }

  lemma {:induction false} BearsIffMentions(d: Defaults, v: Json, parentExplicit: string)
    requires Accepts(v, false) && !ConfigElement(v)
    ensures Bears(Build(d, v, parentExplicit)) <==> Mentions(v)
    decreases v
  {
    if v.JArr? {
      var own, ms := Explicit(v.items), Members(v.items);
      forall i | 0 <= i < |ms|
        ensures Bears(BuildAll(d, ms, own)[i]) <==> Mentions(ms[i])
      {
        assert ms[i] in v.items;
        BearsIffMentions(d, ms[i], own);
        BuildAllAt(d, ms, own, i);
      }
    } else if v.JObj? {
      ParsedObjectIsReadable(d, v.fields, false);
      DefaultsDoNotMatter(d, v.fields, false);
    }
  }

  lemma {:induction false} DivergesIffUnheard(d: Defaults, v: Json, since: Option<nat>, parentExplicit: string, inherited: string)
    requires Accepts(v, false) && !ConfigElement(v) && HandedDown(since, parentExplicit, inherited)
    ensures SameButPolicies(Build(d, v, parentExplicit), BuildNearest(d, v, inherited))
    ensures Diverges(Build(d, v, parentExplicit), BuildNearest(d, v, inherited)) <==> Unheard(v, since)
    decreases v
  {
    TreesOfOneDocument(d, v, parentExplicit, inherited);
    if v.JArr? {
      var own, ms := Explicit(v.items), Members(v.items);
      var policy, depth := if own != "" then own else inherited, Since(v.items, since);
      forall i | 0 <= i < |ms|
        ensures SameButPolicies(BuildAll(d, ms, own)[i], BuildAllNearest(d, ms, policy)[i])
        ensures Diverges(BuildAll(d, ms, own)[i], BuildAllNearest(d, ms, policy)[i]) <==> Unheard(ms[i], depth)
        ensures Bears(BuildAll(d, ms, own)[i]) <==> Mentions(ms[i])
      {
        assert ms[i] in v.items;
        DivergesIffUnheard(d, ms[i], depth, own, policy);
        BearsIffMentions(d, ms[i], own);
        BuildAllAt(d, ms, own, i);
        BuildAllNearestAt(d, ms, policy, i);
      }
      hide Bears, Mentions, Accepts, Build, BuildNearest, BuildAll, BuildAllNearest;
      DivergesHere(d, v, since, parentExplicit, inherited);
    } else {
      assert Build(d, v, parentExplicit).group == [];
    }
  }

  /** One array, given the verdict on each of its members. */
  lemma DivergesHere(d: Defaults, v: Json, since: Option<nat>, parentExplicit: string, inherited: string)
    requires v.JArr? && HandedDown(since, parentExplicit, inherited)
    requires SameButPolicies(Build(d, v, parentExplicit), BuildNearest(d, v, inherited))
    requires var own, ms, depth := Explicit(v.items), Members(v.items), Since(v.items, since);
             var policy := if own != "" then own else inherited;
             forall i :: 0 <= i < |ms| ==>
               && SameButPolicies(BuildAll(d, ms, own)[i], BuildAllNearest(d, ms, policy)[i])
               && (Diverges(BuildAll(d, ms, own)[i], BuildAllNearest(d, ms, policy)[i]) <==> Unheard(ms[i], depth))
               && (Bears(BuildAll(d, ms, own)[i]) <==> Mentions(ms[i]))
    ensures Diverges(Build(d, v, parentExplicit), BuildNearest(d, v, inherited)) <==> Unheard(v, since)
  {
    hide Bears, Mentions, Members, Explicit;
    var own, ms, depth := Explicit(v.items), Members(v.items), Since(v.items, since);
    var a, b := Build(d, v, parentExplicit), BuildNearest(d, v, inherited);
    assert a.group == BuildAll(d, ms, own);
    assert TwoBear(a.group) <==> MentionsTwo(ms);
    assert Aborts(a.errorPolicy) != Aborts(b.errorPolicy) <==> depth.Some? && depth.value >= 2;
  }

  /**
   The exact rule for the cluster: some client can tell the parser's policies from those of the nearest
   ancestor if and only if the document has a second bare array below an Abort policy in which one
   object comes after another.
   */
  lemma InheritanceIsNoticedIff(d: Defaults, v: Json)
    requires Accepts(v, true)
    ensures (exists respond, n :: Tells(respond, n, Build(d, v, ""), BuildNearest(d, v, ""))) <==> Unheard(v, None)
  {
    assert !ConfigElement(v) && Accepts(v, false);
    BuiltIsSound(d, v, "");
    NearestIsSound(d, v, "");
    DivergesIffUnheard(d, v, None, "", "");
    hide Build, BuildNearest, Unheard, Diverges, SameButPolicies, Sound, Tells;
    ToldApartIff(Build(d, v, ""), BuildNearest(d, v, ""));
  }

  /** The group of a bare array of one or two members, under both rules. */
  lemma BareGroups(d: Defaults, xs: seq<Json>, parentExplicit: string, inherited: string)
    requires 1 <= |xs| <= 2 && !ConfigElement(xs[0])
    ensures var (a, b) := (Build(d, JArr(xs), parentExplicit), BuildNearest(d, JArr(xs), inherited));
            && a.kind.GroupKind? && |a.group| == |b.group| == |xs|
            && a.errorPolicy == parentExplicit && b.errorPolicy == inherited
            && forall i :: 0 <= i < |xs| ==> a.group[i] == Build(d, xs[i], "") && b.group[i] == BuildNearest(d, xs[i], inherited)
  {
    assert Members(xs) == xs && Explicit(xs) == "";
    forall i | 0 <= i < |xs|
      ensures BuildAll(d, xs, "")[i] == Build(d, xs[i], "") && BuildAllNearest(d, xs, inherited)[i] == BuildNearest(d, xs[i], inherited)
    {
      BuildAllAt(d, xs, "", i);
      BuildAllNearestAt(d, xs, inherited, i);
    }
  }

  /** The group that applyGroup prints around one member. */
  lemma AbortGroup(d: Defaults, x: Json)
    requires Accepts(x, false) && !ConfigElement(x)
    ensures var v := JArr([JObj(Config("Abort")), x]);
            && Accepts(v, true)
            && Build(d, v, "").group == [Build(d, x, "Abort")] && BuildNearest(d, v, "").group == [BuildNearest(d, x, "Abort")]
  {
    var config := JObj(Config("Abort"));
    ConfigIsConfig("Abort");
    hide Config, IsConfig, HasKind, ConfigPolicy;
    assert Members([config, x]) == [x] && Explicit([config, x]) == "Abort";
    BuildAllAt(d, [x], "Abort", 0);
    BuildAllNearestAt(d, [x], "Abort", 0);
  }

  lemma PlainArrayAccepted(xs: seq<Json>)
    requires forall i :: 0 <= i < |xs| ==> Accepts(xs[i], false) && !ConfigElement(xs[i])
    ensures Accepts(JArr(xs), false) && !ConfigElement(JArr(xs))
  {
  }

  lemma ObjectIsLeaf(d: Defaults, x: Object)
    requires Accepts(JObj(x), false) && !IsConfig(x)
    ensures LeafAt(Build(d, JObj(x), ""), []) && !ConfigElement(JObj(x))
  {
    ParsedObjectIsReadable(d, x, false);
    DefaultsDoNotMatter(d, x, false);
  }

  /** The two trees of an Abort group around a plain array around another one with two objects. */
  lemma CounterexampleTrees(d: Defaults, x: Object, y: Object) returns (v: Json, a: Applier, b: Applier)
    requires Accepts(JObj(x), false) && !IsConfig(x) && Accepts(JObj(y), false) && !IsConfig(y)
    ensures v == JArr([JObj(Config("Abort")), JArr([JArr([JObj(x), JObj(y)])])]) && Accepts(v, true)
    ensures a == Build(d, v, "") && b == BuildNearest(d, v, "")
    ensures NodeAt(a, [0, 0]).Some? && NodeAt(a, [0, 0]).value.kind.GroupKind? && NodeAt(a, [0, 0]).value.errorPolicy == ""
    ensures NodeAt(b, [0, 0]).Some? && NodeAt(b, [0, 0]).value.errorPolicy == "Abort"
    ensures LeafAt(a, [0, 0, 0]) && LeafAt(a, [0, 0, 1])
  {
    hide *;
    var innermost := JArr([JObj(x), JObj(y)]);
    var inner := JArr([innermost]);
    v := JArr([JObj(Config("Abort")), inner]);
    ObjectIsLeaf(d, x);
    ObjectIsLeaf(d, y);
    PlainArrayAccepted([JObj(x), JObj(y)]);
    PlainArrayAccepted([innermost]);
    AbortGroup(d, inner);
    BareGroups(d, [innermost], "Abort", "Abort");
    BareGroups(d, [JObj(x), JObj(y)], "", "Abort");
    a, b := Build(d, v, ""), BuildNearest(d, v, "");
    assert a.group[0].group[0] == Build(d, innermost, "") && b.group[0].group[0] == BuildNearest(d, innermost, "Abort");
    NodeAtTwo(a, 0, 0);
    NodeAtTwo(b, 0, 0);
    LeafAtThree(a, 0, 0, 0);
    LeafAtThree(a, 0, 0, 1);
  }

  /**
   The documented promise fails on a concrete document: an Abort group around a plain array around
   another one with two objects. A client that fails the first object, and nothing else, is asked to
   apply the second one nevertheless; with nearest-ancestor policies it would not be.
   */
  lemma InheritanceCounterexample(d: Defaults, x: Object, y: Object) returns (v: Json, k: nat)
    requires Accepts(JObj(x), false) && !IsConfig(x) && Accepts(JObj(y), false) && !IsConfig(y)
    ensures v == JArr([JObj(Config("Abort")), JArr([JArr([JObj(x), JObj(y)])])]) && Accepts(v, true)
    ensures var (actual, documented) := (Exec(Build(d, v, ""), FailAt(k), 0).0, Exec(BuildNearest(d, v, ""), FailAt(k), 0).0);
            && FailedPaths(actual) == FailedPaths(documented) == {[0, 0, 0]}
            && Issued(actual, [0, 0, 1]) && !Issued(documented, [0, 0, 1])
  {
    assert !Aborts("") && Aborts("Abort");
    hide *;
    var a, b;
    v, a, b := CounterexampleTrees(d, x, y);
    assert [0, 0] + [0] + [] == [0, 0, 0] && [0, 0] + [1] + [] == [0, 0, 1];
    AcceptedAtRoot(v);
    TreesOfOneDocument(d, v, "", "");
    BuiltIsSound(d, v, "");
    NearestIsSound(d, v, "");
    LeavesAreAround(a, [0, 0], 0, 1);
    k := OneFailureTells(a, b, [0, 0], 0, 1, [], []);
  }

  lemma AcceptedAtRoot(v: Json)
    requires Accepts(v, true)
    ensures Accepts(v, false) && !ConfigElement(v)
  {
  }

  lemma NodeAtTwo(a: Applier, i: nat, j: nat)
    requires i < |a.group| && j < |a.group[i].group|
    ensures NodeAt(a, [i, j]) == Some(a.group[i].group[j])
  {
    assert [i] + [j] == [i, j] && [j] + [] == [j];
    NodeBelow(a, i, [j]);
    NodeBelow(a.group[i], j, []);
  }

  lemma LeafAtThree(a: Applier, i: nat, j: nat, k: nat)
    requires i < |a.group| && j < |a.group[i].group| && k < |a.group[i].group[j].group|
    requires LeafAt(a.group[i].group[j].group[k], [])
    ensures LeafAt(a, [i, j, k])
  {
    assert [i] + [j, k] == [i, j, k] && [j] + [k] == [j, k] && [k] + [] == [k];
    NodeBelow(a, i, [j, k]);
    NodeBelow(a.group[i], j, [k]);
    NodeBelow(a.group[i].group[j], k, []);
  }

  lemma LeavesAreAround(a: Applier, g: Path, i: nat, j: nat)
    requires NodeAt(a, g).Some? && NodeAt(a, g).value.kind.GroupKind? && i < j
    requires LeafAt(a, g + [i] + []) && LeafAt(a, g + [j] + [])
    ensures Around(a, g, i, j, [], [])
  {
  }
}
