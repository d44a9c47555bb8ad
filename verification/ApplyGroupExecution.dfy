/**
 Walking and applying a tree of appliers against a client that may answer every call as it likes.

 A node is named by its path of member indices from the root. The trace of an execution lists the
 calls that were issued, each with its node and the client's answer.
 */
module ApplyGroupExecution {
  import opened Wrappers
  import opened Unstructured
  import opened ApplyGroup
  import opened ApplyGroupGrammar

  type Path = seq<nat>

  datatype Outcome = Success | NotFound | Failure(message: string)

  datatype Call =
    | ApplyCall(resource: Object, options: Option<PatchOptions>, subResource: string)
    | DeleteCall(target: Object, deleteOptions: Option<DeleteOptions>)

  datatype Issue = Issue(path: Path, call: Call, outcome: Outcome)
  {
    /** NotFound counts as success for deletions. */
    predicate Failed() { outcome.Failure? || (outcome.NotFound? && call.ApplyCall?) }
  }

  datatype ApplyError = CallFailed(call: Call, outcome: Outcome) | NoResource | ConfigNotAppliable | UnknownKind(n: int)

  // ---- what Apply does ----

  predicate IsLeaf(a: Applier) { a.kind.ApplyKind? || a.kind.DeleteKind? }

  function CallOf(a: Applier): Call
    requires IsLeaf(a) && a.resource.Some?
  {
    if a.kind.ApplyKind? then ApplyCall(a.resource.value, a.applyOptions, a.subResource)
    else DeleteCall(Strip(a.resource.value), a.deleteOptions)
  }

  function ErrorOf(i: Issue): seq<ApplyError> {
    if i.Failed() then [CallFailed(i.call, i.outcome)] else []
  }

  function Prefixed(i: nat, trace: seq<Issue>): (r: seq<Issue>)
    ensures |r| == |trace|
    ensures forall k :: 0 <= k < |r| ==> r[k] == trace[k].(path := [i] + trace[k].path)
  {
    seq(|trace|, k requires 0 <= k < |trace| => trace[k].(path := [i] + trace[k].path))
  }

  /** Trace and flattened error list of Apply when the client answers its n-th call with respond(n). */
  function Exec(a: Applier, respond: nat -> Outcome, n: nat): (seq<Issue>, seq<ApplyError>)
    decreases a, 0
  {
    match a.kind
    case NoopKind => ([], [])
    case ApplyKind => ExecLeaf(a, respond, n)
    case DeleteKind => ExecLeaf(a, respond, n)
    case GroupKind => ExecMembers(a.errorPolicy, a.group, 0, respond, n)
    case ApplyGroupConfigKind => ([], [ConfigNotAppliable])
    case OtherKind(k) => ([], [UnknownKind(k)])
  }

  function ExecLeaf(a: Applier, respond: nat -> Outcome, n: nat): (seq<Issue>, seq<ApplyError>)
    requires IsLeaf(a)
  {
    if a.resource.None? then ([], [NoResource])
    else
      var i := Issue([], CallOf(a), respond(n));
      ([i], ErrorOf(i))
  }

  /** The members from index i on. An unknown policy neither stops nor reports: the switch has no default. */
  function ExecMembers(policy: string, group: seq<Applier>, i: nat, respond: nat -> Outcome, n: nat):
    (seq<Issue>, seq<ApplyError>)
    requires i <= |group|
    decreases group, |group| - i
  {
    if i == |group| then ([], [])
    else
      var (trace, errors) := Exec(group[i], respond, n);
      if errors != [] && policy == "Abort" then (Prefixed(i, trace), errors)
      else
        var (rest, more) := ExecMembers(policy, group, i + 1, respond, n + |trace|);
        (Prefixed(i, trace) + rest, (if policy == "" || policy == "Continue" then errors else []) + more)
  }

  /** The client: it logs its calls and answers them in an order fixed by an adversary. */
  class Client {
    const respond: nat -> Outcome
    var log: seq<(Call, Outcome)>

    constructor (respond: nat -> Outcome)
      ensures this.respond == respond && log == []
    {
      this.respond := respond;
      log := [];
    }

    method Do(call: Call) returns (outcome: Outcome)
      modifies this
      ensures outcome == respond(|old(log)|) && log == old(log) + [(call, outcome)]
    {
      outcome := respond(|log|);
      log := log + [(call, outcome)];
    }
  }

  function Log(trace: seq<Issue>): (r: seq<(Call, Outcome)>)
    ensures |r| == |trace|
    ensures forall k :: 0 <= k < |r| ==> r[k] == (trace[k].call, trace[k].outcome)
  {
    seq(|trace|, k requires 0 <= k < |trace| => (trace[k].call, trace[k].outcome))
  }

  /** Apply. The calls that reach the client and the errors returned are those of Exec. */
  method Apply(a: Applier, cli: Client) returns (errors: seq<ApplyError>)
    modifies cli
    ensures var (trace, errs) := Exec(a, cli.respond, |old(cli.log)|);
            errors == errs && cli.log == old(cli.log) + Log(trace)
    decreases a
  {
    match a.kind {
      case NoopKind => errors := [];
      case ApplyKind =>
        if a.resource.None? { return [NoResource]; }
        var call := ApplyCall(a.resource.value, a.applyOptions, a.subResource);
        var outcome := cli.Do(call);
        errors := if outcome.Success? then [] else [CallFailed(call, outcome)];
      case DeleteKind =>
        if a.resource.None? { return [NoResource]; }
        var call := DeleteCall(Strip(a.resource.value), a.deleteOptions);
        var outcome := cli.Do(call);
        errors := if outcome.Failure? then [CallFailed(call, outcome)] else [];
      case GroupKind => errors := ApplyMembers(a, cli);
      case ApplyGroupConfigKind => errors := [ConfigNotAppliable];
      case OtherKind(k) => errors := [UnknownKind(k)];
    }
  }

  method ApplyMembers(a: Applier, cli: Client) returns (errors: seq<ApplyError>)
    modifies cli
    ensures var (trace, errs) := ExecMembers(a.errorPolicy, a.group, 0, cli.respond, |old(cli.log)|);
            errors == errs && cli.log == old(cli.log) + Log(trace)
    decreases a, 0
  {
    hide ExecMembers, Exec, Strip, Log, Prefixed, Joined;
    errors := [];
    ghost var n0, done := |cli.log|, [];
    JoinedUnit(ExecMembers(a.errorPolicy, a.group, 0, cli.respond, n0));
    for i := 0 to |a.group|
      invariant cli.log == old(cli.log) + Log(done)
      invariant ExecMembers(a.errorPolicy, a.group, 0, cli.respond, n0) ==
                Joined(done, errors, ExecMembers(a.errorPolicy, a.group, i, cli.respond, n0 + |done|))
      invariant a.errorPolicy == "Abort" ==> errors == []
    {
      var child := a.group[i];
      ghost var sub, rest := MembersStep(a.errorPolicy, a.group, i, cli.respond, n0 + |done|);
      JoinedAssociates(done, errors, Prefixed(i, sub), Exec(child, cli.respond, n0 + |done|).1, rest);
      var errs := Apply(child, cli);
      LogAppends(old(cli.log), done, Prefixed(i, sub), sub);
      if errs != [] {
        if a.errorPolicy == "Abort" {
          return errs;
        } else if a.errorPolicy == "" || a.errorPolicy == "Continue" {
          errors := errors + errs;
        }
      }
      done := done + Prefixed(i, sub);
    }
    MembersEnd(a.errorPolicy, a.group, cli.respond, n0 + |done|);
    JoinedAssociates(done, errors, [], [], ([], []));
  }

  function Joined(trace: seq<Issue>, errors: seq<ApplyError>, tail: (seq<Issue>, seq<ApplyError>)): (seq<Issue>, seq<ApplyError>) {
    (trace + tail.0, errors + tail.1)
  }

  lemma JoinedUnit(tail: (seq<Issue>, seq<ApplyError>))
    ensures Joined([], [], tail) == tail && Log([]) == []
  {
    assert [] + tail.0 == tail.0 && [] + tail.1 == tail.1;
  }

  lemma JoinedAssociates(
      done: seq<Issue>, errors: seq<ApplyError>, next: seq<Issue>, more: seq<ApplyError>, tail: (seq<Issue>, seq<ApplyError>))
    ensures Joined(done, errors, Joined(next, more, tail)) == Joined(done + next, errors + more, tail)
    ensures Joined(done, errors, Joined(next, [], tail)) == Joined(done + next, errors, tail)
    ensures errors == [] ==> Joined(done, errors, (next, more)) == (done + next, more)
    ensures Joined(done, errors, ([], [])) == (done, errors)
  {
    assert done + (next + tail.0) == done + next + tail.0;
    assert errors + (more + tail.1) == errors + more + tail.1;
    assert errors + ([] + tail.1) == errors + tail.1;
    assert [] + more == more && done + [] == done && errors + [] == errors;
  }

  lemma LogAppends(start: seq<(Call, Outcome)>, done: seq<Issue>, prefixed: seq<Issue>, sub: seq<Issue>)
    requires Log(prefixed) == Log(sub)
    ensures start + Log(done) + Log(sub) == start + Log(done + prefixed)
    ensures |done + prefixed| == |done| + |sub|
  {
    assert |Log(prefixed)| == |Log(sub)|;
    assert Log(done + prefixed) == Log(done) + Log(prefixed);
  }

  /** One turn of the member loop. */
  lemma MembersStep(policy: string, group: seq<Applier>, i: nat, respond: nat -> Outcome, n: nat)
    returns (sub: seq<Issue>, rest: (seq<Issue>, seq<ApplyError>))
    requires i < |group|
    ensures sub == Exec(group[i], respond, n).0 && Log(Prefixed(i, sub)) == Log(sub)
    ensures rest == ExecMembers(policy, group, i + 1, respond, n + |sub|)
    ensures var errors := Exec(group[i], respond, n).1;
            ExecMembers(policy, group, i, respond, n) ==
            if errors != [] && policy == "Abort" then (Prefixed(i, sub), errors)
            else Joined(Prefixed(i, sub), if policy == "" || policy == "Continue" then errors else [], rest)
  {
    hide Exec;
    sub := Exec(group[i], respond, n).0;
    rest := ExecMembers(policy, group, i + 1, respond, n + |sub|);
  }

  lemma MembersEnd(policy: string, group: seq<Applier>, respond: nat -> Outcome, n: nat)
    ensures ExecMembers(policy, group, |group|, respond, n) == ([], [])
  {
  }

  // ---- what every execution is like ----

  /** The node at a path, or None. */
  function NodeAt(a: Applier, p: Path): Option<Applier>
    decreases |p|
  {
    if p == [] then Some(a) else if p[0] < |a.group| then NodeAt(a.group[p[0]], p[1..]) else None
  }

  predicate LeafAt(a: Applier, p: Path) { NodeAt(a, p).Some? && IsLeaf(NodeAt(a, p).value) }

  /** Depth-first order: a node before its members, earlier members before later ones. */
  predicate Before(p: Path, q: Path) {
    q != [] && (p == [] || p[0] < q[0] || (p[0] == q[0] && Before(p[1..], q[1..])))
  }

  predicate InOrder(ps: seq<Path>) { forall i, j :: 0 <= i < j < |ps| ==> Before(ps[i], ps[j]) }

  function Paths(trace: seq<Issue>): (ps: seq<Path>)
    ensures |ps| == |trace| && forall k :: 0 <= k < |ps| ==> ps[k] == trace[k].path
  {
    seq(|trace|, k requires 0 <= k < |trace| => trace[k].path)
  }

  function FailedPaths(trace: seq<Issue>): (f: set<Path>)
    ensures forall p :: p in f <==> exists k :: 0 <= k < |trace| && trace[k].Failed() && trace[k].path == p
  {
    set k | 0 <= k < |trace| && trace[k].Failed() :: trace[k].path
  }

  /** The failed paths below member j, as that member sees them. */
  function Under(failed: set<Path>, j: nat): set<Path> {
    set q | q in failed && q != [] && q[0] == j :: q[1..]
  }

  lemma UnderAt(failed: set<Path>, j: nat, p: Path)
    ensures p in Under(failed, j) <==> [j] + p in failed
  {
    assert ([j] + p)[1..] == p;
    if q :| q in failed && q != [] && q[0] == j && q[1..] == p {
      assert q == [j] + p;
    }
  }

  /** Some Abort group on the way down to p has an earlier member with a failed call in it. */
  predicate Skipped(a: Applier, failed: set<Path>, p: Path)
    decreases |p|
  {
    p != [] && p[0] < |a.group| && (
      || (a.errorPolicy == "Abort" && exists q :: q in failed && q != [] && q[0] < p[0])
      || Skipped(a.group[p[0]], Under(failed, p[0]), p[1..]))
  }

  function Errors(trace: seq<Issue>): seq<ApplyError> {
    if trace == [] then [] else ErrorOf(trace[0]) + Errors(trace[1..])
  }

  lemma {:induction false} ErrorsAppend(s: seq<Issue>, t: seq<Issue>)
    ensures Errors(s + t) == Errors(s) + Errors(t)
  {
    if s == [] {
      assert s + t == t;
    } else {
      assert (s + t)[1..] == s[1..] + t;
      ErrorsAppend(s[1..], t);
    }
  }

  lemma {:induction false} ErrorsOfPrefixed(i: nat, t: seq<Issue>)
    ensures Errors(Prefixed(i, t)) == Errors(t)
  {
    if t != [] {
      assert Prefixed(i, t)[1..] == Prefixed(i, t[1..]);
      ErrorsOfPrefixed(i, t[1..]);
    }
  }

  lemma {:induction false} NoErrorsIffNoneFailed(t: seq<Issue>)
    ensures Errors(t) == [] <==> FailedPaths(t) == {}
  {
    if t != [] {
      NoErrorsIffNoneFailed(t[1..]);
      assert forall k :: 1 <= k < |t| ==> t[k] == t[1..][k - 1];
      if t[0].Failed() {
        assert t[0].path in FailedPaths(t);
      } else if p :| p in FailedPaths(t) {
        var k :| 0 <= k < |t| && t[k].Failed() && t[k].path == p;
        assert t[1..][k - 1].Failed();
        assert p in FailedPaths(t[1..]);
      }
    }
  }

  /** For a sound tree the returned errors are exactly the failed calls, in the order they were issued. */
  lemma {:induction false} ErrorsAreTheFailedCalls(a: Applier, respond: nat -> Outcome, n: nat)
    requires Sound(a)
    ensures Exec(a, respond, n).1 == Errors(Exec(a, respond, n).0)
    decreases a, 0
  {
    if a.kind.GroupKind? {
      MemberErrors(a.errorPolicy, a.group, 0, respond, n);
    }
  }

  lemma {:induction false} MemberErrors(policy: string, group: seq<Applier>, i: nat, respond: nat -> Outcome, n: nat)
    requires i <= |group| && policy in {"", "Continue", "Abort"}
    requires forall j :: 0 <= j < |group| ==> Sound(group[j])
    ensures ExecMembers(policy, group, i, respond, n).1 == Errors(ExecMembers(policy, group, i, respond, n).0)
    decreases group, |group| - i
  {
    hide Sound;
    if i < |group| {
      ErrorsAreTheFailedCalls(group[i], respond, n);
      var sub, rest := MembersStep(policy, group, i, respond, n);
      ErrorsOfPrefixed(i, sub);
      ErrorsAppend(Prefixed(i, sub), rest.0);
      MemberErrors(policy, group, i + 1, respond, n + |sub|);
    }
  }

  lemma NodeBelow(a: Applier, i: nat, p: Path)
    requires i < |a.group|
    ensures NodeAt(a, [i] + p) == NodeAt(a.group[i], p) && (LeafAt(a, [i] + p) <==> LeafAt(a.group[i], p))
  {
    assert ([i] + p)[1..] == p;
  }

  /** Every issued call belongs to a leaf and is that leaf's call, answered in turn. */
  lemma {:induction false} IssuesAreLeafCalls(a: Applier, respond: nat -> Outcome, n: nat, k: nat)
    requires k < |Exec(a, respond, n).0|
    ensures var i := Exec(a, respond, n).0[k];
            && LeafAt(a, i.path) && NodeAt(a, i.path).value.resource.Some?
            && i.call == CallOf(NodeAt(a, i.path).value)
            && i.outcome == respond(n + k)
    decreases a, |a.group| + 1
  {
    if a.kind.GroupKind? {
      MemberIssues(a, 0, respond, n, k);
    }
  }

  /**
   What a call carries, field by field: an apply the node's resource, options and sub-resource, a deletion
   the node's deletion options and nothing of its resource but the identity. A call that finds nothing
   has failed if it was to apply and not if it was to delete.
   */
  lemma IssuesCarryTheirNodes(a: Applier, respond: nat -> Outcome, n: nat, k: nat)
    requires k < |Exec(a, respond, n).0|
    ensures var i := Exec(a, respond, n).0[k];
            NodeAt(a, i.path).Some? && NodeAt(a, i.path).value.resource.Some? &&
            var leaf, call := NodeAt(a, i.path).value, i.call;
            var o := leaf.resource.value;
            match leaf.kind
            case ApplyKind =>
              && call == ApplyCall(o, leaf.applyOptions, leaf.subResource)
              && (i.Failed() <==> respond(n + k) != Success)
            case DeleteKind =>
              && call.DeleteCall? && call.deleteOptions == leaf.deleteOptions
              && GvkOf(call.target) == GvkOf(o)
              && MetaField(call.target, "namespace") == MetaField(o, "namespace")
              && MetaField(call.target, "name") == MetaField(o, "name")
              && call.target.Keys <= {"apiVersion", "kind", "metadata"}
              && (i.Failed() <==> respond(n + k).Failure?)
            case _ => false
  {
    IssuesAreLeafCalls(a, respond, n, k);
    var i := Exec(a, respond, n).0[k];
    StripKeepsIdentity(NodeAt(a, i.path).value.resource.value);
    hide Exec, NodeAt, GvkOf, MetaField, Strip;
  }

  lemma {:induction false} MemberIssues(a: Applier, i: nat, respond: nat -> Outcome, n: nat, k: nat)
    requires i <= |a.group| && k < |ExecMembers(a.errorPolicy, a.group, i, respond, n).0|
    ensures var e := ExecMembers(a.errorPolicy, a.group, i, respond, n).0[k];
            && e.path != [] && i <= e.path[0]
            && LeafAt(a, e.path) && NodeAt(a, e.path).value.resource.Some?
            && e.call == CallOf(NodeAt(a, e.path).value)
            && e.outcome == respond(n + k)
    decreases a, |a.group| - i
  {
    hide Exec, ExecMembers, CallOf, LeafAt, NodeAt;
    MembersEnd(a.errorPolicy, a.group, respond, n);
    if i < |a.group| {
      var sub, rest := MembersStep(a.errorPolicy, a.group, i, respond, n);
      if k < |sub| {
        IssuesAreLeafCalls(a.group[i], respond, n, k);
        NodeBelow(a, i, sub[k].path);
      } else {
        MemberIssues(a, i + 1, respond, n + |sub|, k - |sub|);
      }
    }
  }

  /** Calls are issued in depth-first order, so each leaf's at most once. */
  lemma {:induction false} IssuedInOrder(a: Applier, respond: nat -> Outcome, n: nat)
    ensures InOrder(Paths(Exec(a, respond, n).0))
    decreases a, |a.group| + 1
  {
    if a.kind.GroupKind? {
      MembersInOrder(a, 0, respond, n);
    }
  }

  lemma {:induction false} MembersInOrder(a: Applier, i: nat, respond: nat -> Outcome, n: nat)
    requires i <= |a.group|
    ensures InOrder(Paths(ExecMembers(a.errorPolicy, a.group, i, respond, n).0))
    decreases a, |a.group| - i
  {
    if i < |a.group| {
      var sub, rest := MembersStep(a.errorPolicy, a.group, i, respond, n);
      IssuedInOrder(a.group[i], respond, n);
      MembersInOrder(a, i + 1, respond, n + |sub|);
      forall k | 0 <= k < |rest.0|
        ensures rest.0[k].path != [] && i < rest.0[k].path[0]
      {
        MemberIssues(a, i + 1, respond, n + |sub|, k);
      }
      OrderJoins(i, sub, rest.0);
    }
  }

  lemma BeforePrefixed(i: nat, p: Path, q: Path)
    ensures Before([i] + p, [i] + q) <==> Before(p, q)
  {
    assert ([i] + p)[1..] == p && ([i] + q)[1..] == q;
    if p == [] { assert Before([], q) <==> q != []; }
  }

  lemma PrefixedInOrder(i: nat, sub: seq<Issue>)
    requires InOrder(Paths(sub))
    ensures InOrder(Paths(Prefixed(i, sub)))
  {
    hide Before;
    var ps := Paths(Prefixed(i, sub));
    forall k, l | 0 <= k < l < |ps|
      ensures Before(ps[k], ps[l])
    {
      assert Before(Paths(sub)[k], Paths(sub)[l]);
      BeforePrefixed(i, sub[k].path, sub[l].path);
    }
  }

  lemma InOrderJoin(ps: seq<Path>, qs: seq<Path>, i: nat)
    requires InOrder(ps) && InOrder(qs)
    requires forall k :: 0 <= k < |ps| ==> ps[k] != [] && ps[k][0] == i
    requires forall k :: 0 <= k < |qs| ==> qs[k] != [] && i < qs[k][0]
    ensures InOrder(ps + qs)
  {
    var all := ps + qs;
    forall k, l | 0 <= k < l < |all|
      ensures Before(all[k], all[l])
    {
      if k >= |ps| { assert Before(qs[k - |ps|], qs[l - |ps|]); }
    }
  }

  lemma OrderJoins(i: nat, sub: seq<Issue>, rest: seq<Issue>)
    requires InOrder(Paths(sub)) && InOrder(Paths(rest))
    requires forall k :: 0 <= k < |rest| ==> rest[k].path != [] && i < rest[k].path[0]
    ensures InOrder(Paths(Prefixed(i, sub) + rest)) && InOrder(Paths(Prefixed(i, sub)))
  {
    hide InOrder, Before;
    PrefixedInOrder(i, sub);
    InOrderJoin(Paths(Prefixed(i, sub)), Paths(rest), i);
    assert Paths(Prefixed(i, sub) + rest) == Paths(Prefixed(i, sub)) + Paths(rest);
  }

  lemma {:induction false} BeforeIsIrreflexive(p: Path)
    ensures !Before(p, p)
  {
    if p != [] { BeforeIsIrreflexive(p[1..]); }
  }

  lemma EachLeafAtMostOnce(a: Applier, respond: nat -> Outcome, n: nat, j: nat, k: nat)
    requires j < k < |Exec(a, respond, n).0|
    ensures Exec(a, respond, n).0[j].path != Exec(a, respond, n).0[k].path
  {
    var trace := Exec(a, respond, n).0;
    IssuedInOrder(a, respond, n);
    assert Before(Paths(trace)[j], Paths(trace)[k]);
    BeforeIsIrreflexive(trace[j].path);
  }

  predicate Issued(trace: seq<Issue>, p: Path) { p in Paths(trace) }

  /**
   A leaf's call is not issued if and only if some Abort group around it has an earlier member with
   a failed call. Nothing else ever keeps a call from being issued.
   */
  lemma {:induction false} SkippedIffAborted(a: Applier, respond: nat -> Outcome, n: nat, p: Path)
    requires Sound(a) && LeafAt(a, p)
    ensures var trace := Exec(a, respond, n).0;
            Issued(trace, p) <==> !Skipped(a, FailedPaths(trace), p)
    decreases a, |a.group| + 1
  {
    if a.kind.GroupKind? {
      assert p != [];
      MemberSkipped(a, 0, respond, n, p);
    } else {
      assert p == [];
      assert Paths(Exec(a, respond, n).0) == [[]];
    }
  }

  /** Skipped, seen from the loop that runs the members from i on. */
  predicate SkippedMember(a: Applier, failed: set<Path>, p: Path)
    requires p != [] && p[0] < |a.group|
  {
    || (a.errorPolicy == "Abort" && exists q :: q in failed && q != [] && q[0] < p[0])
    || Skipped(a.group[p[0]], Under(failed, p[0]), p[1..])
  }

  lemma SoundMember(a: Applier, i: nat)
    requires Sound(a) && i < |a.group|
    ensures Sound(a.group[i])
  {
  }

  /** The trace from member i on: that member's part and, unless it stopped the group, the rest. */
  lemma MemberTrace(a: Applier, i: nat, respond: nat -> Outcome, n: nat)
    returns (sub: seq<Issue>, tail: seq<Issue>, stopped: bool)
    requires Sound(a) && a.kind.GroupKind? && i < |a.group|
    ensures sub == Exec(a.group[i], respond, n).0
    ensures ExecMembers(a.errorPolicy, a.group, i, respond, n).0 == Prefixed(i, sub) + tail
    ensures forall k :: 0 <= k < |tail| ==> tail[k].path != [] && i < tail[k].path[0]
    ensures stopped ==> tail == [] && a.errorPolicy == "Abort" && FailedPaths(sub) != {}
    ensures !stopped ==> tail == ExecMembers(a.errorPolicy, a.group, i + 1, respond, n + |sub|).0
    ensures !stopped && a.errorPolicy == "Abort" ==> FailedPaths(sub) == {}
  {
    hide Sound, Exec, ExecMembers, FailedPaths;
    SoundMember(a, i);
    var rest;
    sub, rest := MembersStep(a.errorPolicy, a.group, i, respond, n);
    var errors := Exec(a.group[i], respond, n).1;
    ErrorsAreTheFailedCalls(a.group[i], respond, n);
    NoErrorsIffNoneFailed(sub);
    stopped := errors != [] && a.errorPolicy == "Abort";
    tail := if stopped then [] else rest.0;
    assert Prefixed(i, sub) + [] == Prefixed(i, sub);
    forall k | 0 <= k < |tail|
      ensures tail[k].path != [] && i < tail[k].path[0]
    {
      MemberIssues(a, i + 1, respond, n + |sub|, k);
    }
  }

  lemma {:induction false} MemberSkipped(a: Applier, i: nat, respond: nat -> Outcome, n: nat, p: Path)
    requires Sound(a) && a.kind.GroupKind? && i <= |a.group|
    requires p != [] && i <= p[0] < |a.group| && LeafAt(a.group[p[0]], p[1..])
    ensures var trace := ExecMembers(a.errorPolicy, a.group, i, respond, n).0;
            Issued(trace, p) <==> !SkippedMember(a, FailedPaths(trace), p)
    decreases a, |a.group| - i
  {
    hide *;
    SoundMember(a, i);
    var sub, tail, stopped := MemberTrace(a, i, respond, n);
    if p[0] == i {
      SkippedIffAborted(a.group[i], respond, n, p[1..]);
      IssuedHere(i, sub, tail, p);
      SkippedHere(a, i, sub, tail, p);
    } else if stopped {
      IssuedLater(i, sub, tail, p);
      SkippedAfterStop(a, i, sub, p);
    } else {
      IssuedLater(i, sub, tail, p);
      MemberSkipped(a, i + 1, respond, n + |sub|, p);
      SkippedLater(a, i, sub, tail, p);
    }
  }

  lemma SkippedHere(a: Applier, i: nat, sub: seq<Issue>, tail: seq<Issue>, p: Path)
    requires p != [] && i == p[0] < |a.group|
    requires forall k :: 0 <= k < |tail| ==> tail[k].path != [] && i < tail[k].path[0]
    ensures SkippedMember(a, FailedPaths(Prefixed(i, sub) + tail), p) <==> Skipped(a.group[i], FailedPaths(sub), p[1..])
  {
    FailedJoin(i, sub, tail);
  }

  lemma SkippedAfterStop(a: Applier, i: nat, sub: seq<Issue>, p: Path)
    requires p != [] && i < p[0] < |a.group| && a.errorPolicy == "Abort" && FailedPaths(sub) != {}
    ensures SkippedMember(a, FailedPaths(Prefixed(i, sub) + []), p) && !Issued([], p)
  {
    FailedJoin(i, sub, []);
    var q :| q in FailedPaths(sub);
    assert ([i] + q)[1..] == q;
    assert [i] + q in FailedPaths(Prefixed(i, sub) + []);
  }

  lemma FailedOfJoin(i: nat, sub: seq<Issue>, tail: seq<Issue>, q: Path)
    ensures q in FailedPaths(Prefixed(i, sub) + tail) <==>
              (q != [] && q[0] == i && q[1..] in FailedPaths(sub)) || q in FailedPaths(tail)
  {
    var trace := Prefixed(i, sub) + tail;
    if q in FailedPaths(trace) {
      var k :| 0 <= k < |trace| && trace[k].Failed() && trace[k].path == q;
      if k < |sub| {
        assert sub[k].Failed() && q == [i] + sub[k].path && q[1..] == sub[k].path;
      } else {
        assert tail[k - |sub|] == trace[k];
      }
    }
    if q != [] && q[0] == i && q[1..] in FailedPaths(sub) {
      var k :| 0 <= k < |sub| && sub[k].Failed() && sub[k].path == q[1..];
      assert trace[k].Failed() && trace[k].path == q;
    }
    if q in FailedPaths(tail) {
      var k :| 0 <= k < |tail| && tail[k].Failed() && tail[k].path == q;
      assert trace[|sub| + k] == tail[k];
    }
  }

  lemma FailedJoin(i: nat, sub: seq<Issue>, tail: seq<Issue>)
    requires forall k :: 0 <= k < |tail| ==> tail[k].path != [] && i < tail[k].path[0]
    ensures var failed := FailedPaths(Prefixed(i, sub) + tail);
            && Under(failed, i) == FailedPaths(sub)
            && (forall j: nat :: j > i ==> Under(failed, j) == Under(FailedPaths(tail), j))
            && (forall q :: q in failed <==> (q != [] && q[0] == i && q[1..] in FailedPaths(sub)) || q in FailedPaths(tail))
  {
    var failed := FailedPaths(Prefixed(i, sub) + tail);
    forall q
      ensures q in failed <==> (q != [] && q[0] == i && q[1..] in FailedPaths(sub)) || q in FailedPaths(tail)
    {
      FailedOfJoin(i, sub, tail, q);
    }
    forall p: Path
      ensures p in Under(failed, i) <==> p in FailedPaths(sub)
    {
      UnderAt(failed, i, p);
      assert ([i] + p)[1..] == p;
    }
    forall j: nat, p: Path | j > i
      ensures p in Under(failed, j) <==> p in Under(FailedPaths(tail), j)
    {
      UnderAt(failed, j, p);
      UnderAt(FailedPaths(tail), j, p);
    }
  }

  lemma IssuedHere(i: nat, sub: seq<Issue>, tail: seq<Issue>, p: Path)
    requires p != [] && p[0] == i
    requires forall k :: 0 <= k < |tail| ==> tail[k].path != [] && i < tail[k].path[0]
    ensures Issued(Prefixed(i, sub) + tail, p) <==> Issued(sub, p[1..])
  {
    var trace := Prefixed(i, sub) + tail;
    assert [i] + p[1..] == p;
    if Issued(trace, p) {
      var k :| 0 <= k < |trace| && Paths(trace)[k] == p;
      assert k < |sub|;
      assert ([i] + sub[k].path)[1..] == sub[k].path;
      assert Paths(sub)[k] == p[1..];
    }
    if Issued(sub, p[1..]) {
      var k :| 0 <= k < |sub| && Paths(sub)[k] == p[1..];
      assert Paths(trace)[k] == p;
    }
  }

  lemma IssuedLater(i: nat, sub: seq<Issue>, tail: seq<Issue>, p: Path)
    requires p != [] && p[0] > i
    ensures Issued(Prefixed(i, sub) + tail, p) <==> Issued(tail, p)
  {
    var trace := Prefixed(i, sub) + tail;
    assert forall k :: 0 <= k < |sub| ==> Paths(trace)[k] == [i] + sub[k].path;
    if Issued(trace, p) {
      var k :| 0 <= k < |trace| && Paths(trace)[k] == p;
      assert Paths(tail)[k - |sub|] == p;
    }
    if Issued(tail, p) {
      var k :| 0 <= k < |tail| && Paths(tail)[k] == p;
      assert Paths(trace)[|sub| + k] == p;
    }
  }

  lemma SkippedLater(a: Applier, i: nat, sub: seq<Issue>, tail: seq<Issue>, p: Path)
    requires p != [] && i < p[0] < |a.group|
    requires forall k :: 0 <= k < |tail| ==> tail[k].path != [] && i < tail[k].path[0]
    requires a.errorPolicy == "Abort" ==> FailedPaths(sub) == {}
    ensures SkippedMember(a, FailedPaths(Prefixed(i, sub) + tail), p) <==> SkippedMember(a, FailedPaths(tail), p)
  {
    FailedJoin(i, sub, tail);
  }

  /** nil means that every leaf's call was issued and succeeded, and the other way round. */
  lemma NilMeansAllSucceeded(a: Applier, respond: nat -> Outcome, n: nat)
    requires Sound(a)
    ensures var (trace, errors) := Exec(a, respond, n);
            errors == [] <==>
              && (forall p :: LeafAt(a, p) ==> Issued(trace, p))
              && (forall k :: 0 <= k < |trace| ==> !trace[k].Failed())
  {
    var (trace, errors) := Exec(a, respond, n);
    ErrorsAreTheFailedCalls(a, respond, n);
    NoErrorsIffNoneFailed(trace);
    if errors == [] {
      forall p | LeafAt(a, p)
        ensures Issued(trace, p)
      {
        SkippedIffAborted(a, respond, n, p);
        NothingFailedNothingSkipped(a, p);
      }
      assert forall k :: 0 <= k < |trace| && trace[k].Failed() ==> trace[k].path in FailedPaths(trace);
    }
  }

  lemma {:induction false} NothingFailedNothingSkipped(a: Applier, p: Path)
    ensures !Skipped(a, {}, p)
    decreases |p|
  {
    if p != [] && p[0] < |a.group| {
      assert Under({}, p[0]) == {};
      NothingFailedNothingSkipped(a.group[p[0]], p[1..]);
    }
  }

  /**
   Outside the known policies errors are dropped: such a group reports nothing although a call
   failed. Only the parser keeps such groups from existing.
   */
  lemma UnknownPolicyDropsErrors(leaf: Applier, policy: string, message: string)
    requires IsLeaf(leaf) && leaf.resource.Some? && policy !in {"", "Continue", "Abort"}
    ensures var a := BLANK.(kind := GroupKind, errorPolicy := policy, group := [leaf]);
            var (trace, errors) := Exec(a, _ => Failure(message), 0);
            !Sound(a) && |trace| == 1 && trace[0].Failed() && errors == []
  {
    var sub, rest := MembersStep(policy, [leaf], 0, _ => Failure(message), 0);
    MembersEnd(policy, [leaf], _ => Failure(message), |sub|);
  }
}
