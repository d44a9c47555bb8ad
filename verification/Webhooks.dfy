/**
 The webhook configurations built from all Admissions and ClusterAdmissions: sorting, partitioning,
 naming and confining the namespaced ones to their namespace.
 */
module Webhooks {
  import opened Wrappers
  import opened Text

  datatype Scope = AllScopes | ClusterScope | NamespacedScope

  /** What is taken over from a webhook configuration unchanged; the reinvocation policy only for mutating ones. */
  datatype Settings = Settings(common: string, reinvocation: string)

  datatype Rule = Rule(scope: Option<Scope>, matches: string)

  datatype Admission = Admission(namespace: string, name: string, mutating: bool, rules: seq<Rule>, settings: Settings)

  datatype ClusterAdmission = ClusterAdmission(
    name: string, mutating: bool, rules: seq<Rule>, namespaceSelector: string, settings: Settings)

  datatype NamespaceSelector = ByName(namespace: string) | AsConfigured(selector: string)

  datatype Webhook = Webhook(name: string, path: seq<string>, namespaces: NamespaceSelector, rules: seq<Rule>, settings: Settings)

  // ---- order ----

  /** strings.Compare */
  function CompareStrings(a: string, b: string): (r: int)
    ensures -1 <= r <= 1
  {
    if a == [] then if b == [] then 0 else -1
    else if b == [] then 1
    else if a[0] < b[0] then -1
    else if a[0] > b[0] then 1
    else CompareStrings(a[1..], b[1..])
  }

  /** The comparison admissions are sorted with. */
  function Compare(a: Admission, b: Admission): int {
    10 * CompareStrings(a.namespace, b.namespace) + CompareStrings(a.name, b.name)
  }

  lemma {:induction false} StringsEqual(a: string, b: string)
    ensures CompareStrings(a, b) == 0 <==> a == b
  {
    if a != [] && b != [] {
      StringsEqual(a[1..], b[1..]);
      assert a == [a[0]] + a[1..] && b == [b[0]] + b[1..];
    }
  }

  lemma {:induction false} StringsFlip(a: string, b: string)
    ensures CompareStrings(a, b) == -CompareStrings(b, a)
  {
    if a != [] && b != [] { StringsFlip(a[1..], b[1..]); }
  }

  lemma {:induction false} StringsChain(a: string, b: string, c: string)
    requires CompareStrings(a, b) <= 0 && CompareStrings(b, c) <= 0
    ensures CompareStrings(a, c) <= 0
    ensures CompareStrings(a, c) == 0 ==> CompareStrings(a, b) == 0 && CompareStrings(b, c) == 0
  {
    if a != [] && b != [] && c != [] && a[0] == b[0] == c[0] { StringsChain(a[1..], b[1..], c[1..]); }
  }

  /** Ten times one sign plus another is the lexicographic order of namespace and name, and a strict one on distinct keys. */
  lemma CompareIsLexicographic(a: Admission, b: Admission)
    ensures Compare(a, b) < 0 <==>
            CompareStrings(a.namespace, b.namespace) < 0 || (a.namespace == b.namespace && CompareStrings(a.name, b.name) < 0)
    ensures Compare(a, b) == 0 <==> a.namespace == b.namespace && a.name == b.name
    ensures Compare(a, b) == -Compare(b, a)
  {
    StringsEqual(a.namespace, b.namespace);
    StringsEqual(a.name, b.name);
    StringsFlip(a.namespace, b.namespace);
    StringsFlip(a.name, b.name);
  }

  lemma CompareIsTransitive(a: Admission, b: Admission, c: Admission)
    requires Compare(a, b) < 0 && Compare(b, c) < 0
    ensures Compare(a, c) < 0
  {
    StringsChain(a.namespace, b.namespace, c.namespace);
    if CompareStrings(a.namespace, c.namespace) == 0 {
      StringsChain(a.name, b.name, c.name);
    }
  }

  /** What slices.SortFunc promises: a permutation in which no later element compares as less. */
  ghost predicate Sorts<T>(sorted: seq<T>, listed: seq<T>, compare: (T, T) -> int) {
    && multiset(sorted) == multiset(listed)
    && forall i, j :: 0 <= i < j < |sorted| ==> compare(sorted[i], sorted[j]) <= 0
  }

  ghost predicate Ascending<T>(s: seq<T>, compare: (T, T) -> int) {
    forall i, j :: 0 <= i < j < |s| ==> compare(s[i], s[j]) < 0
  }

  ghost predicate Antisymmetric<T(!new)>(compare: (T, T) -> int) {
    forall x, y :: compare(x, y) == -compare(y, x)
  }

  lemma TailMultisets<T>(a: seq<T>, b: seq<T>)
    requires a != [] && b != [] && a[0] == b[0] && multiset(a) == multiset(b)
    ensures multiset(a[1..]) == multiset(b[1..])
  {
    assert a == [a[0]] + a[1..] && b == [b[0]] + b[1..];
    assert multiset(a[1..]) == multiset(a) - multiset{a[0]};
    assert multiset(b[1..]) == multiset(b) - multiset{b[0]};
  }

  lemma SameElements<T>(a: seq<T>, b: seq<T>, x: T)
    requires multiset(a) == multiset(b) && x in a
    ensures x in b
  {
    assert x in multiset(a);
  }

  lemma HeadsAgree<T(!new)>(a: seq<T>, b: seq<T>, compare: (T, T) -> int)
    requires Ascending(a, compare) && Ascending(b, compare) && Antisymmetric(compare)
    requires a != [] && b != [] && b[0] in a && a[0] in b
    ensures a[0] == b[0]
  {
    var i :| 0 <= i < |a| && a[i] == b[0];
    var j :| 0 <= j < |b| && b[j] == a[0];
  }

  lemma {:induction false} AscendingIsUnique<T(!new)>(a: seq<T>, b: seq<T>, compare: (T, T) -> int)
    requires Ascending(a, compare) && Ascending(b, compare) && Antisymmetric(compare) && multiset(a) == multiset(b)
    ensures a == b
  {
    if a == [] || b == [] {
      assert |multiset(a)| == |a| && |multiset(b)| == |b|;
    } else {
      hide Ascending, Antisymmetric;
      SameElements(a, b, a[0]);
      SameElements(b, a, b[0]);
      HeadsAgree(a, b, compare);
      TailMultisets(a, b);
      TailAscends(a, compare);
      TailAscends(b, compare);
      AscendingIsUnique(a[1..], b[1..], compare);
      assert a == [a[0]] + a[1..] && b == [b[0]] + b[1..];
    }
  }

  lemma TailAscends<T>(s: seq<T>, compare: (T, T) -> int)
    requires s != [] && Ascending(s, compare)
    ensures Ascending(s[1..], compare)
  {
  }

  /** Object keys are unique in a cluster. */
  ghost predicate UniqueKeys(items: seq<Admission>) {
    forall i, j :: 0 <= i < j < |items| ==> items[i].namespace != items[j].namespace || items[i].name != items[j].name
  }

  lemma CompareIsAntisymmetric()
    ensures Antisymmetric(Compare)
  {
    forall a, b
      ensures Compare(a, b) == -Compare(b, a)
    {
      CompareIsLexicographic(a, b);
    }
  }

  lemma SortedAscends(sorted: seq<Admission>, listed: seq<Admission>)
    requires Sorts(sorted, listed, Compare) && UniqueKeys(sorted)
    ensures Ascending(sorted, Compare)
  {
    forall i, j | 0 <= i < j < |sorted|
      ensures Compare(sorted[i], sorted[j]) < 0
    {
      CompareIsLexicographic(sorted[i], sorted[j]);
    }
  }

  /** The sorted list depends only on which admissions there are, not on how they were listed or sorted. */
  lemma SortedIsUnique(a: seq<Admission>, listedA: seq<Admission>, b: seq<Admission>, listedB: seq<Admission>)
    requires Sorts(a, listedA, Compare) && Sorts(b, listedB, Compare)
    requires multiset(listedA) == multiset(listedB) && UniqueKeys(a) && UniqueKeys(b)
    ensures a == b
  {
    CompareIsAntisymmetric();
    SortedAscends(a, listedA);
    SortedAscends(b, listedB);
    AscendingIsUnique(a, b, Compare);
  }

  function CompareCluster(a: ClusterAdmission, b: ClusterAdmission): int { CompareStrings(a.name, b.name) }

  ghost predicate UniqueNames(items: seq<ClusterAdmission>) { forall i, j :: 0 <= i < j < |items| ==> items[i].name != items[j].name }

  lemma SortedClusterIsUnique(a: seq<ClusterAdmission>, listedA: seq<ClusterAdmission>, b: seq<ClusterAdmission>, listedB: seq<ClusterAdmission>)
    requires Sorts(a, listedA, CompareCluster) && Sorts(b, listedB, CompareCluster)
    requires multiset(listedA) == multiset(listedB) && UniqueNames(a) && UniqueNames(b)
    ensures a == b
  {
    forall x, y
      ensures CompareCluster(x, y) == -CompareCluster(y, x)
    {
      StringsFlip(x.name, y.name);
    }
    forall i, j | 0 <= i < j < |a|
      ensures CompareCluster(a[i], a[j]) < 0
    {
      StringsEqual(a[i].name, a[j].name);
    }
    forall i, j | 0 <= i < j < |b|
      ensures CompareCluster(b[i], b[j]) < 0
    {
      StringsEqual(b[i].name, b[j].name);
    }
    AscendingIsUnique(a, b, CompareCluster);
  }

  // ---- partition ----

  function OfKind(items: seq<Admission>, mutating: bool): seq<Admission> {
    if items == [] then []
    else OfKind(items[..|items| - 1], mutating) + if items[|items| - 1].mutating == mutating then [items[|items| - 1]] else []
  }

  function ClusterOfKind(items: seq<ClusterAdmission>, mutating: bool): seq<ClusterAdmission> {
    if items == [] then []
    else ClusterOfKind(items[..|items| - 1], mutating) + if items[|items| - 1].mutating == mutating then [items[|items| - 1]] else []
  }

  method Partition(items: seq<Admission>) returns (validating: seq<Admission>, mutating: seq<Admission>)
    ensures validating == OfKind(items, false) && mutating == OfKind(items, true)
  {
    validating, mutating := [], [];
    for i := 0 to |items|
      invariant validating == OfKind(items[..i], false) && mutating == OfKind(items[..i], true)
    {
      assert items[..i + 1][..i] == items[..i];
      if items[i].mutating { mutating := mutating + [items[i]]; } else { validating := validating + [items[i]]; }
    }
    assert items[..|items|] == items;
  }

  method PartitionCluster(items: seq<ClusterAdmission>) returns (validating: seq<ClusterAdmission>, mutating: seq<ClusterAdmission>)
    ensures validating == ClusterOfKind(items, false) && mutating == ClusterOfKind(items, true)
  {
    validating, mutating := [], [];
    for i := 0 to |items|
      invariant validating == ClusterOfKind(items[..i], false) && mutating == ClusterOfKind(items[..i], true)
    {
      assert items[..i + 1][..i] == items[..i];
      if items[i].mutating { mutating := mutating + [items[i]]; } else { validating := validating + [items[i]]; }
    }
    assert items[..|items|] == items;
  }

  /** Separating keeps the order. */
  lemma {:induction false} PartitionKeepsOrder(items: seq<Admission>, mutating: bool)
    requires Ascending(items, Compare)
    ensures Ascending(OfKind(items, mutating), Compare)
  {
    if items != [] {
      var rest, a := items[..|items| - 1], items[|items| - 1];
      PartitionKeepsOrder(rest, mutating);
      forall b | b in OfKind(rest, mutating)
        ensures Compare(b, a) < 0
      {
        OfKindIs(rest, mutating, b);
        var i :| 0 <= i < |rest| && rest[i] == b;
      }
      hide Compare;
      var kind := OfKind(rest, mutating);
      assert forall i :: 0 <= i < |kind| ==> kind[i] in kind;
    }
  }

  lemma OfKindStep(rest: seq<Admission>, a: Admission, mutating: bool)
    ensures OfKind(rest + [a], mutating) == if a.mutating == mutating then OfKind(rest, mutating) + [a] else OfKind(rest, mutating)
  {
    assert (rest + [a])[..|rest|] == rest;
  }

  lemma Appended(s: seq<Admission>, a: Admission)
    ensures multiset(s + [a]) == multiset(s) + multiset{a}
  {
  }

  /** Every admission is in exactly one of the two lists, as often as it was listed. */
  lemma {:induction false} PartitionConserves(items: seq<Admission>)
    ensures multiset(OfKind(items, false)) + multiset(OfKind(items, true)) == multiset(items)
  {
    if items != [] {
      hide OfKind;
      var rest, a := items[..|items| - 1], items[|items| - 1];
      assert items == rest + [a];
      PartitionConserves(rest);
      OfKindStep(rest, a, false);
      OfKindStep(rest, a, true);
      Appended(rest, a);
      Appended(OfKind(rest, a.mutating), a);
    } else {
      assert OfKind(items, false) == [] && OfKind(items, true) == [];
    }
  }

  lemma {:induction false} OfKindIs(items: seq<Admission>, mutating: bool, a: Admission)
    ensures a in OfKind(items, mutating) <==> a in items && a.mutating == mutating
  {
    if items != [] {
      OfKindIs(items[..|items| - 1], mutating, a);
      assert items == items[..|items| - 1] + [items[|items| - 1]];
    }
  }

  // ---- rules ----

  /** A rule as the code holds it: its scope is a reference that may be shared. */
  class ScopeCell {
    var value: Scope

    constructor (value: Scope)
      ensures this.value == value
    {
      this.value := value;
    }
  }

  datatype RuleRef = RuleRef(scope: ScopeCell?, matches: string)

  function Deref(r: RuleRef): Rule
    reads r.scope
  {
    Rule(if r.scope == null then None else Some(r.scope.value), r.matches)
  }

  /** Every rule confined to a scope. */
  function Enforced(rules: seq<Rule>, scope: Scope): (r: seq<Rule>)
    ensures |r| == |rules| && forall i :: 0 <= i < |r| ==> r[i] == Rule(Some(scope), rules[i].matches)
  {
    seq(|rules|, i requires 0 <= i < |rules| => rules[i].(scope := Some(scope)))
  }

  /** The new rules share nothing with the given ones, which are not modified. */
  method RulesWithScopeEnforced(rules: array<RuleRef>, scope: Scope) returns (newRules: array<RuleRef>)
    ensures fresh(newRules) && newRules.Length == rules.Length
    ensures forall i :: 0 <= i < newRules.Length ==> newRules[i].scope != null && fresh(newRules[i].scope)
    ensures forall i :: 0 <= i < newRules.Length ==> Deref(newRules[i]) == Rule(Some(scope), rules[i].matches)
  {
    var cell := new ScopeCell(scope);
    newRules := new RuleRef[rules.Length];
    for i := 0 to rules.Length
      invariant forall k :: 0 <= k < i ==> newRules[k] == RuleRef(cell, rules[k].matches)
      invariant cell.value == scope
    {
      newRules[i] := rules[i];
      newRules[i] := newRules[i].(scope := cell);
    }
  }

  // ---- webhooks ----

  const NAMESPACED := "namespaced.espejote.io"
  const CLUSTER := "cluster.espejote.io"

  function NameOf(a: Admission): string { a.name + ['.'] + a.namespace + ['.'] + NAMESPACED }

  function ClusterNameOf(a: ClusterAdmission): string { a.name + ['.'] + CLUSTER }

  /** Only mutating webhooks have a reinvocation policy. */
  function SettingsFor(s: Settings, mutating: bool): Settings { if mutating then s else s.(reinvocation := "") }

  function WebhookOf(a: Admission): Webhook {
    Webhook(NameOf(a), ["dynamic", a.namespace, a.name], ByName(a.namespace), Enforced(a.rules, NamespacedScope), SettingsFor(a.settings, a.mutating))
  }

  function ClusterWebhookOf(a: ClusterAdmission): Webhook {
    Webhook(ClusterNameOf(a), ["dynamic-cluster", a.name], AsConfigured(a.namespaceSelector), a.rules, SettingsFor(a.settings, a.mutating))
  }

  /** The webhooks of one configuration: the namespaced ones first. */
  function WebhooksOf(admissions: seq<Admission>, clusterAdmissions: seq<ClusterAdmission>): (r: seq<Webhook>)
    ensures |r| == |admissions| + |clusterAdmissions|
    ensures forall i :: 0 <= i < |admissions| ==> r[i] == WebhookOf(admissions[i])
    ensures forall i :: 0 <= i < |clusterAdmissions| ==> r[|admissions| + i] == ClusterWebhookOf(clusterAdmissions[i])
  {
    seq(|admissions|, i requires 0 <= i < |admissions| => WebhookOf(admissions[i])) +
    seq(|clusterAdmissions|, i requires 0 <= i < |clusterAdmissions| => ClusterWebhookOf(clusterAdmissions[i]))
  }

  method BuildWebhooks(admissions: seq<Admission>, clusterAdmissions: seq<ClusterAdmission>) returns (webhooks: seq<Webhook>)
    ensures webhooks == WebhooksOf(admissions, clusterAdmissions)
  {
    hide NameOf, ClusterNameOf;
    webhooks := [];
    for i := 0 to |admissions|
      invariant |webhooks| == i && forall k :: 0 <= k < i ==> webhooks[k] == WebhookOf(admissions[k])
    {
      var a := admissions[i];
      webhooks := webhooks + [Webhook(NameOf(a), ["dynamic", a.namespace, a.name], ByName(a.namespace),
                                      Enforced(a.rules, NamespacedScope), SettingsFor(a.settings, a.mutating))];
    }
    for i := 0 to |clusterAdmissions|
      invariant |webhooks| == |admissions| + i
      invariant forall k :: 0 <= k < |admissions| ==> webhooks[k] == WebhookOf(admissions[k])
      invariant forall k :: 0 <= k < i ==> webhooks[|admissions| + k] == ClusterWebhookOf(clusterAdmissions[k])
    {
      var a := clusterAdmissions[i];
      webhooks := webhooks + [Webhook(ClusterNameOf(a), ["dynamic-cluster", a.name], AsConfigured(a.namespaceSelector),
                                      a.rules, SettingsFor(a.settings, a.mutating))];
    }
  }

  datatype Kind = MutatingWebhookConfiguration | ValidatingWebhookConfiguration

  datatype Configuration = Configuration(kind: Kind, name: string, webhooks: seq<Webhook>)

  /** The configurations applied for sorted admissions. The validating one carries the mutating one's name. */
  function Configurations(mutatingName: string, admissions: seq<Admission>, clusterAdmissions: seq<ClusterAdmission>): seq<Configuration> {
    [Configuration(MutatingWebhookConfiguration, mutatingName, WebhooksOf(OfKind(admissions, true), ClusterOfKind(clusterAdmissions, true))),
     Configuration(ValidatingWebhookConfiguration, mutatingName, WebhooksOf(OfKind(admissions, false), ClusterOfKind(clusterAdmissions, false)))]
  }

  /** Reconcile from the sorted lists on; a failing patch ends it. */
  method Reconcile(mutatingName: string, admissions: seq<Admission>, clusterAdmissions: seq<ClusterAdmission>, patches: Kind -> bool)
    returns (applied: seq<Configuration>, ok: bool)
    ensures ok <==> patches(MutatingWebhookConfiguration) && patches(ValidatingWebhookConfiguration)
    ensures applied == Configurations(mutatingName, admissions, clusterAdmissions)
                       [..if !patches(MutatingWebhookConfiguration) then 0 else if !patches(ValidatingWebhookConfiguration) then 1 else 2]
  {
    var validating, mutating := Partition(admissions);
    var validatingCluster, mutatingCluster := PartitionCluster(clusterAdmissions);
    hide WebhooksOf, OfKind, ClusterOfKind;
    applied := [];
    var webhooks := BuildWebhooks(mutating, mutatingCluster);
    if !patches(MutatingWebhookConfiguration) { return applied, false; }
    applied := applied + [Configuration(MutatingWebhookConfiguration, mutatingName, webhooks)];
    webhooks := BuildWebhooks(validating, validatingCluster);
    if !patches(ValidatingWebhookConfiguration) { return applied, false; }
    applied := applied + [Configuration(ValidatingWebhookConfiguration, mutatingName, webhooks)];
    return applied, true;
  }

  /** Listing the same admissions in another order, or sorting them by another algorithm, gives the same configurations. */
  lemma ConfigurationsDependOnSets(
    mutatingName: string,
    a: seq<Admission>, listedA: seq<Admission>, b: seq<Admission>, listedB: seq<Admission>,
    c: seq<ClusterAdmission>, listedC: seq<ClusterAdmission>, d: seq<ClusterAdmission>, listedD: seq<ClusterAdmission>)
    requires Sorts(a, listedA, Compare) && Sorts(b, listedB, Compare) && UniqueKeys(a) && UniqueKeys(b)
    requires Sorts(c, listedC, CompareCluster) && Sorts(d, listedD, CompareCluster) && UniqueNames(c) && UniqueNames(d)
    requires multiset(listedA) == multiset(listedB) && multiset(listedC) == multiset(listedD)
    ensures Configurations(mutatingName, a, c) == Configurations(mutatingName, b, d)
  {
    SortedIsUnique(a, listedA, b, listedB);
    SortedClusterIsUnique(c, listedC, d, listedD);
  }

  // ---- names and confinement ----

  lemma LastSegments(a: string, x: string, b: string, y: string)
    requires '.' !in x && '.' !in y && a + ['.'] + x == b + ['.'] + y
    ensures a == b && x == y
  {
    BeforeLastOf(a, x, '.');
    BeforeLastOf(b, y, '.');
    assert x == (a + ['.'] + x)[|a| + 1..] && y == (b + ['.'] + y)[|b| + 1..];
  }

  lemma NamespacedNamesDiffer(a: Admission, b: Admission)
    requires '.' !in a.namespace && '.' !in b.namespace && NameOf(a) == NameOf(b)
    ensures a.name == b.name && a.namespace == b.namespace
  {
    var x, y := a.name + ['.'] + a.namespace, b.name + ['.'] + b.namespace;
    var tail := ['.'] + NAMESPACED;
    assert NameOf(a) == x + tail && NameOf(b) == y + tail;
    assert x == (x + tail)[..|x + tail| - |tail|] && y == (y + tail)[..|y + tail| - |tail|];
    LastSegments(a.name, a.namespace, b.name, b.namespace);
  }

  lemma ClusterNamesDiffer(a: ClusterAdmission, b: ClusterAdmission)
    requires ClusterNameOf(a) == ClusterNameOf(b)
    ensures a.name == b.name
  {
    var tail := ['.'] + CLUSTER;
    assert ClusterNameOf(a) == a.name + tail && ClusterNameOf(b) == b.name + tail;
    assert a.name == (a.name + tail)[..|a.name + tail| - |tail|] && b.name == (b.name + tail)[..|b.name + tail| - |tail|];
  }

  /** The two suffixes differ in the letter before their common end. */
  lemma KindsOfNamesDiffer(a: Admission, b: ClusterAdmission)
    ensures NameOf(a) != ClusterNameOf(b)
  {
    var x, y := NameOf(a), ClusterNameOf(b);
    assert |NAMESPACED| == 22 && |CLUSTER| == 19 && NAMESPACED[9] == 'd' && CLUSTER[6] == 'r';
    assert x[|x| - 13] == NAMESPACED[9] && y[|y| - 13] == CLUSTER[6];
  }

  /** Within a configuration all webhook names differ, if no namespace contains a dot. */
  lemma WebhookNamesDiffer(admissions: seq<Admission>, clusterAdmissions: seq<ClusterAdmission>, i: nat, j: nat)
    requires UniqueKeys(admissions) && UniqueNames(clusterAdmissions) && forall a :: a in admissions ==> '.' !in a.namespace
    requires i < j < |WebhooksOf(admissions, clusterAdmissions)|
    ensures WebhooksOf(admissions, clusterAdmissions)[i].name != WebhooksOf(admissions, clusterAdmissions)[j].name
  {
    var n, w := |admissions|, WebhooksOf(admissions, clusterAdmissions);
    hide WebhooksOf, NameOf, ClusterNameOf;
    if j < n {
      if NameOf(admissions[i]) == NameOf(admissions[j]) { NamespacedNamesDiffer(admissions[i], admissions[j]); }
    } else if i < n {
      assert w[j] == w[n + (j - n)];
      KindsOfNamesDiffer(admissions[i], clusterAdmissions[j - n]);
    } else {
      assert w[i] == w[n + (i - n)] && w[j] == w[n + (j - n)];
      if ClusterNameOf(clusterAdmissions[i - n]) == ClusterNameOf(clusterAdmissions[j - n]) {
        ClusterNamesDiffer(clusterAdmissions[i - n], clusterAdmissions[j - n]);
      }
    }
  }

  /** With a dot in a namespace two different admissions can have one name. */
  lemma DottedNamespacesCollide(settings: Settings)
    ensures var a, b := Admission("b.c", "a", true, [], settings), Admission("c", "a.b", true, [], settings);
            UniqueKeys([a, b]) && NameOf(a) == NameOf(b)
  {
    var a, b := Admission("b.c", "a", true, [], settings), Admission("c", "a.b", true, [], settings);
    assert a.name + ['.'] + a.namespace == b.name + ['.'] + b.namespace;
  }

  /** The webhook asks the path of this admission about objects of this namespace, with its rules and settings. */
  predicate AsksFor(w: Webhook, a: Admission) {
    && w.name == NameOf(a) && w.path == ["dynamic", a.namespace, a.name] && w.namespaces == ByName(a.namespace)
    && |w.rules| == |a.rules|
    && (forall i :: 0 <= i < |a.rules| ==> w.rules[i].scope == Some(NamespacedScope) && w.rules[i].matches == a.rules[i].matches)
    && w.settings == Settings(a.settings.common, if a.mutating then a.settings.reinvocation else "")
  }

  /** An admission of a namespace is only ever asked about that namespace, and only about namespaced objects. */
  lemma NamespacedWebhooksAreConfined(mutatingName: string, admissions: seq<Admission>, clusterAdmissions: seq<ClusterAdmission>, a: Admission)
    requires a in admissions
    ensures var config := Configurations(mutatingName, admissions, clusterAdmissions)[if a.mutating then 0 else 1];
            exists w :: w in config.webhooks && AsksFor(w, a)
  {
    OfKindIs(admissions, a.mutating, a);
    var kind := OfKind(admissions, a.mutating);
    var i :| 0 <= i < |kind| && kind[i] == a;
    var webhooks := WebhooksOf(kind, ClusterOfKind(clusterAdmissions, a.mutating));
    assert webhooks[i] == WebhookOf(a) && webhooks[i] in webhooks;
    hide NameOf, WebhooksOf, OfKind, ClusterOfKind;
    assert AsksFor(webhooks[i], a);
  }

  lemma {:induction false} ClusterOfKindIs(items: seq<ClusterAdmission>, mutating: bool, a: ClusterAdmission)
    ensures a in ClusterOfKind(items, mutating) <==> a in items && a.mutating == mutating
  {
    if items != [] {
      ClusterOfKindIs(items[..|items| - 1], mutating, a);
      assert items == items[..|items| - 1] + [items[|items| - 1]];
    }
  }

  /** The webhook takes over what the cluster-wide admission says, scopes and namespace selector included. */
  predicate TakesOver(w: Webhook, a: ClusterAdmission) {
    && w.name == ClusterNameOf(a) && w.path == ["dynamic-cluster", a.name] && w.namespaces == AsConfigured(a.namespaceSelector)
    && w.rules == a.rules && w.settings == Settings(a.settings.common, if a.mutating then a.settings.reinvocation else "")
  }

  /** Every cluster-wide admission has a webhook in the configuration of its kind, unchanged. */
  lemma ClusterAdmissionsAreTakenOver(
    mutatingName: string, admissions: seq<Admission>, clusterAdmissions: seq<ClusterAdmission>, a: ClusterAdmission)
    requires a in clusterAdmissions
    ensures var config := Configurations(mutatingName, admissions, clusterAdmissions)[if a.mutating then 0 else 1];
            exists w :: w in config.webhooks && TakesOver(w, a)
  {
    ClusterOfKindIs(clusterAdmissions, a.mutating, a);
    var kind, cluster := OfKind(admissions, a.mutating), ClusterOfKind(clusterAdmissions, a.mutating);
    var i :| 0 <= i < |cluster| && cluster[i] == a;
    var webhooks := WebhooksOf(kind, cluster);
    assert webhooks[|kind| + i] == ClusterWebhookOf(a) && webhooks[|kind| + i] in webhooks;
    hide ClusterNameOf, WebhooksOf, OfKind, ClusterOfKind;
    assert TakesOver(webhooks[|kind| + i], a);
  }

  /** Each configuration has one webhook for each admission of its kind and no other, whichever way they are counted. */
  lemma WebhooksAreCounted(mutatingName: string, admissions: seq<Admission>, clusterAdmissions: seq<ClusterAdmission>)
    ensures var configs := Configurations(mutatingName, admissions, clusterAdmissions);
            && |configs| == 2
            && configs[0].kind == MutatingWebhookConfiguration && configs[1].kind == ValidatingWebhookConfiguration
            && |configs[0].webhooks| + |configs[1].webhooks| == |admissions| + |clusterAdmissions|
  {
    PartitionCounts(admissions);
    ClusterPartitionCounts(clusterAdmissions);
    hide OfKind, ClusterOfKind;
  }

  lemma {:induction false} PartitionCounts(items: seq<Admission>)
    ensures |OfKind(items, false)| + |OfKind(items, true)| == |items|
  {
    if items != [] { PartitionCounts(items[..|items| - 1]); }
  }

  lemma {:induction false} ClusterPartitionCounts(items: seq<ClusterAdmission>)
    ensures |ClusterOfKind(items, false)| + |ClusterOfKind(items, true)| == |items|
  {
    if items != [] { ClusterPartitionCounts(items[..|items| - 1]); }
  }

  lemma ClusterWebhooksFollow(admissions: seq<Admission>, clusterAdmissions: seq<ClusterAdmission>, i: nat)
    requires |admissions| <= i < |admissions| + |clusterAdmissions|
    ensures WebhooksOf(admissions, clusterAdmissions)[i].namespaces.AsConfigured?
  {
    assert WebhooksOf(admissions, clusterAdmissions)[|admissions| + (i - |admissions|)].namespaces.AsConfigured?;
  }

  /** Every webhook confined to a namespace belongs to an admission of that namespace and of the configuration's kind. */
  lemma ConfinedWebhooksAreAdmissions(mutatingName: string, admissions: seq<Admission>, clusterAdmissions: seq<ClusterAdmission>, mutating: bool, w: Webhook)
    requires w in Configurations(mutatingName, admissions, clusterAdmissions)[if mutating then 0 else 1].webhooks && w.namespaces.ByName?
    ensures exists a :: a in admissions && a.mutating == mutating && AsksFor(w, a)
  {
    var kind, cluster := OfKind(admissions, mutating), ClusterOfKind(clusterAdmissions, mutating);
    var i :| 0 <= i < |WebhooksOf(kind, cluster)| && WebhooksOf(kind, cluster)[i] == w;
    if i >= |kind| { ClusterWebhooksFollow(kind, cluster, i); }
    OfKindIs(admissions, mutating, kind[i]);
    assert AsksFor(w, kind[i]);
  }
}
