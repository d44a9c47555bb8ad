/**
 How the command line tool collects the requests and contexts it renders a ManagedResource with, and
 how they compare with the requests the controller's sources emit.
 */
module CollectInput {
  import opened Wrappers
  import opened Unstructured
  import opened Fingerprint
  import opened FilteredWatch
  import opened InstanceGate
  import opened Selection

  /** One rendering: the trigger's name, and the object for a trigger that watches some. */
  datatype Input = Input(trigger: string, watched: Option<Obj>)

  /** The rendering that is not due to a trigger. */
  const UNTRIGGERED := Input("", None)

  datatype TriggerFailure = NoSource(name: string) | ListFailed(name: string)

  datatype CollectError =
    | DuplicateContextName(name: string)
    | DuplicateTriggerName(name: string)
    | UnknownContext(trigger: string, context: string)
    | SomeTriggers(failures: seq<TriggerFailure>)
    | SomeContexts(names: seq<string>)

  datatype ContextInput = ContextInput(name: string, objects: seq<Obj>)

  /** A list of what a definition selects, or nothing if the definition or the server fails. */
  type Lister = Resource -> Option<seq<Obj>>

  function ContextNamed(cs: seq<Context>, name: string): Option<Context> {
    if cs == [] then None
    else if cs[|cs| - 1].name == name then Some(cs[|cs| - 1])
    else ContextNamed(cs[..|cs| - 1], name)
  }

  predicate ContextKnown(t: Trigger, cs: seq<Context>) {
    t.watchContextResource != "" ==> ContextNamed(cs, t.watchContextResource).Some?
  }

  /** A trigger on a context becomes a trigger on that context's resource, without its interval. */
  function Resolved(t: Trigger, cs: seq<Context>): Trigger {
    if t.watchContextResource != "" && ContextKnown(t, cs) then
      Trigger(t.name, NO_INTERVAL, ContextNamed(cs, t.watchContextResource).value.resource, "")
    else t
  }

  function Failure(t: Trigger, list: Lister): Option<TriggerFailure> {
    if t.interval != NO_INTERVAL then None
    else if t.watchResource.apiVersion == "" then Some(NoSource(t.name))
    else if list(t.watchResource).None? then Some(ListFailed(t.name))
    else None
  }

  function WatchedInputs(name: string, objects: seq<Obj>): (r: seq<Input>)
    ensures |r| == |objects| && forall i :: 0 <= i < |r| ==> r[i] == Input(name, Some(objects[i]))
  {
    seq(|objects|, i requires 0 <= i < |objects| => Input(name, Some(objects[i])))
  }

  function InputsOf(t: Trigger, list: Lister): seq<Input> {
    if t.interval != NO_INTERVAL then [Input(t.name, None)]
    else if Failure(t, list).Some? then []
    else WatchedInputs(t.name, list(t.watchResource).value)
  }

  function Inputs(ts: seq<Trigger>, cs: seq<Context>, list: Lister): seq<Input> {
    if ts == [] then [UNTRIGGERED]
    else Inputs(ts[..|ts| - 1], cs, list) + InputsOf(Resolved(ts[|ts| - 1], cs), list)
  }

  function Failures(ts: seq<Trigger>, cs: seq<Context>, list: Lister): seq<TriggerFailure> {
    if ts == [] then []
    else
      var f := Failure(Resolved(ts[|ts| - 1], cs), list);
      Failures(ts[..|ts| - 1], cs, list) + if f.Some? then [f.value] else []
  }

  /** The contexts that could be listed, and the names of those that could not. */
  function Listed(cs: seq<Context>, list: Lister): (seq<ContextInput>, seq<string>) {
    if cs == [] then ([], [])
    else
      var c := cs[|cs| - 1];
      var (done, failed) := Listed(cs[..|cs| - 1], list);
      if list(c.resource).Some? then (done + [ContextInput(c.name, list(c.resource).value)], failed) else (done, failed + [c.name])
  }

  /** One more context, and whether its name is new. */
  lemma ContextsGrow(cs: seq<Context>, i: nat)
    requires i < |cs| && Distinct(ContextNames(cs[..i]))
    ensures cs[..i + 1] == cs[..i] + [cs[i]] && ContextNames(cs[..i + 1]) == ContextNames(cs[..i]) + [cs[i].name]
    ensures cs[i].name in ContextNames(cs[..i]) ==> !Distinct(ContextNames(cs))
    ensures cs[i].name !in ContextNames(cs[..i]) ==> Distinct(ContextNames(cs[..i + 1]))
  {
    if cs[i].name in ContextNames(cs[..i]) {
      var k :| 0 <= k < i && ContextNames(cs[..i])[k] == cs[i].name;
      assert ContextNames(cs)[k] == ContextNames(cs)[i];
    }
  }

  lemma ContextNamedGrows(cs: seq<Context>, i: nat, name: string)
    requires i < |cs|
    ensures ContextNamed(cs[..i + 1], name) == if cs[i].name == name then Some(cs[i]) else ContextNamed(cs[..i], name)
  {
    assert cs[..i + 1][..i] == cs[..i];
  }

  method CollectContextConfigs(cs: seq<Context>) returns (r: Result<map<string, Context>, CollectError>)
    ensures r.Ok? <==> Distinct(ContextNames(cs))
    ensures r.Ok? ==> forall n :: n in r.value <==> ContextNamed(cs, n).Some?
    ensures r.Ok? ==> forall n :: n in r.value ==> ContextNamed(cs, n) == Some(r.value[n])
    ensures r.Err? ==> r.error.DuplicateContextName? && Repeated(ContextNames(cs), r.error.name)
  {
    var cfgs: map<string, Context> := map[];
    for i := 0 to |cs|
      invariant Distinct(ContextNames(cs[..i]))
      invariant forall n :: n in cfgs <==> n in ContextNames(cs[..i])
      invariant forall n :: n in cfgs <==> ContextNamed(cs[..i], n).Some?
      invariant forall n :: n in cfgs ==> ContextNamed(cs[..i], n) == Some(cfgs[n])
    {
      var context := cs[i];
      ContextsGrow(cs, i);
      if context.name in cfgs {
        assert ContextNames(cs)[i] == context.name && ContextNames(cs)[..i] == ContextNames(cs[..i]);
        return Err(DuplicateContextName(context.name));
      }
      hide Distinct, ContextNamed, ContextNames;
      forall n: string
        ensures ContextNamed(cs[..i + 1], n) == if context.name == n then Some(context) else ContextNamed(cs[..i], n)
      {
        ContextNamedGrows(cs, i, n);
      }
      cfgs := cfgs[context.name := context];
    }
    assert cs[..|cs|] == cs;
    return Ok(cfgs);
  }

  /** A name that occurs again after it occurred. */
  ghost predicate Repeated(names: seq<string>, name: string) { exists j :: 0 <= j < |names| && names[j] == name && name in names[..j] }

  /** One more trigger, and whether its name is new. */
  lemma TriggersGrow(ts: seq<Trigger>, i: nat)
    requires i < |ts| && Distinct(TriggerNames(ts[..i]))
    ensures ts[..i + 1] == ts[..i] + [ts[i]] && TriggerNames(ts[..i + 1]) == TriggerNames(ts[..i]) + [ts[i].name]
    ensures ts[i].name in TriggerNames(ts[..i]) ==> !Distinct(TriggerNames(ts)) && Repeated(TriggerNames(ts), ts[i].name)
    ensures ts[i].name !in TriggerNames(ts[..i]) ==>
              Distinct(TriggerNames(ts[..i + 1])) && forall t :: t in ts[..i] ==> t.name != ts[i].name
  {
    if ts[i].name in TriggerNames(ts[..i]) {
      var k :| 0 <= k < i && TriggerNames(ts[..i])[k] == ts[i].name;
      assert TriggerNames(ts)[k] == TriggerNames(ts)[i] && TriggerNames(ts)[..i] == TriggerNames(ts[..i]);
    } else {
      forall t | t in ts[..i]
        ensures t.name != ts[i].name
      {
        var k :| 0 <= k < i && ts[..i][k] == t;
        assert TriggerNames(ts[..i])[k] == t.name;
      }
    }
  }

  method ResolveTriggers(ts: seq<Trigger>, cs: seq<Context>, contextCfgs: map<string, Context>)
    returns (r: Result<map<string, Trigger>, CollectError>)
    requires forall n :: n in contextCfgs <==> ContextNamed(cs, n).Some?
    requires forall n :: n in contextCfgs ==> ContextNamed(cs, n) == Some(contextCfgs[n])
    ensures r.Ok? <==> Distinct(TriggerNames(ts)) && forall t :: t in ts ==> ContextKnown(t, cs)
    ensures r.Ok? ==> forall t :: t in ts ==> t.name in r.value && r.value[t.name] == Resolved(t, cs)
    ensures r.Err? ==> r.error.DuplicateTriggerName? || r.error.UnknownContext?
    ensures r.Err? && r.error.DuplicateTriggerName? ==> Repeated(TriggerNames(ts), r.error.name)
    ensures r.Err? && r.error.UnknownContext? ==>
              exists t :: t in ts && t.name == r.error.trigger && t.watchContextResource == r.error.context && !ContextKnown(t, cs)
  {
    var cfgs: map<string, Trigger> := map[];
    for i := 0 to |ts|
      invariant Distinct(TriggerNames(ts[..i]))
      invariant forall n :: n in cfgs <==> n in TriggerNames(ts[..i])
      invariant forall t :: t in ts[..i] ==> ContextKnown(t, cs) && t.name in cfgs && cfgs[t.name] == Resolved(t, cs)
    {
      hide Distinct, TriggerNames, ContextNamed, Repeated;
      var trigger := ts[i];
      TriggersGrow(ts, i);
      if trigger.name in cfgs { return Err(DuplicateTriggerName(trigger.name)); }
      if trigger.watchContextResource != "" {
        if trigger.watchContextResource !in contextCfgs {
          assert trigger in ts && !ContextKnown(trigger, cs);
          return Err(UnknownContext(trigger.name, trigger.watchContextResource));
        }
        var cfg := contextCfgs[trigger.watchContextResource];
        cfgs := cfgs[trigger.name := Trigger(trigger.name, NO_INTERVAL, cfg.resource, "")];
        continue;
      }
      cfgs := cfgs[trigger.name := trigger];
    }
    assert ts[..|ts|] == ts;
    return Ok(cfgs);
  }

  method CollectTriggers(ts: seq<Trigger>, cs: seq<Context>, cfgs: map<string, Trigger>, list: Lister)
    returns (inputs: seq<Input>, failures: seq<TriggerFailure>)
    requires forall t :: t in ts ==> t.name in cfgs && cfgs[t.name] == Resolved(t, cs)
    ensures inputs == Inputs(ts, cs, list) && failures == Failures(ts, cs, list)
  {
    inputs, failures := [UNTRIGGERED], [];
    for i := 0 to |ts|
      invariant inputs == Inputs(ts[..i], cs, list) && failures == Failures(ts[..i], cs, list)
    {
      assert ts[..i + 1][..i] == ts[..i] && ts[i] in ts;
      var trigger := cfgs[ts[i].name];
      if trigger.interval != NO_INTERVAL {
        inputs := inputs + [Input(trigger.name, None)];
        continue;
      }
      if trigger.watchResource.apiVersion == "" {
        failures := failures + [NoSource(trigger.name)];
        continue;
      }
      var objects := list(trigger.watchResource);
      if objects.None? {
        failures := failures + [ListFailed(trigger.name)];
        continue;
      }
      ghost var before := inputs;
      for j := 0 to |objects.value|
        invariant inputs == before + WatchedInputs(trigger.name, objects.value[..j])
      {
        assert WatchedInputs(trigger.name, objects.value[..j + 1]) ==
               WatchedInputs(trigger.name, objects.value[..j]) + [Input(trigger.name, Some(objects.value[j]))];
        inputs := inputs + [Input(trigger.name, Some(objects.value[j]))];
      }
      assert objects.value[..|objects.value|] == objects.value;
    }
    assert ts[..|ts|] == ts;
  }

  method CollectContexts(cs: seq<Context>, list: Lister) returns (contexts: seq<ContextInput>, failed: seq<string>)
    ensures (contexts, failed) == Listed(cs, list)
  {
    contexts, failed := [], [];
    for i := 0 to |cs|
      invariant (contexts, failed) == Listed(cs[..i], list)
    {
      assert cs[..i + 1][..i] == cs[..i];
      var objects := list(cs[i].resource);
      if objects.None? {
        failed := failed + [cs[i].name];
        continue;
      }
      contexts := contexts + [ContextInput(cs[i].name, objects.value)];
    }
    assert cs[..|cs|] == cs;
  }

  /** Whether the tool collects anything at all. */
  predicate Collectable(spec: Spec, list: Lister) {
    && Distinct(ContextNames(spec.contexts)) && Distinct(TriggerNames(spec.triggers))
    && (forall t :: t in spec.triggers ==> ContextKnown(t, spec.contexts))
    && Failures(spec.triggers, spec.contexts, list) == []
    && Listed(spec.contexts, list).1 == []
  }

  /** collectInput: definitions are resolved first, then all triggers and all contexts are tried before failing. */
  method Collect(spec: Spec, list: Lister) returns (r: Result<(seq<Input>, seq<ContextInput>), CollectError>)
    ensures r.Ok? <==> Collectable(spec, list)
    ensures r.Ok? ==> r.value == (Inputs(spec.triggers, spec.contexts, list), Listed(spec.contexts, list).0)
    ensures r.Err? && r.error.DuplicateContextName? ==> Repeated(ContextNames(spec.contexts), r.error.name)
    ensures r.Err? && r.error.DuplicateTriggerName? ==> Repeated(TriggerNames(spec.triggers), r.error.name)
    ensures r.Err? && r.error.UnknownContext? ==>
              exists t :: t in spec.triggers && t.name == r.error.trigger && t.watchContextResource == r.error.context
                          && !ContextKnown(t, spec.contexts)
    ensures r.Err? && r.error.SomeTriggers? ==> r.error.failures == Failures(spec.triggers, spec.contexts, list)
    ensures r.Err? && r.error.SomeContexts? ==>
              Failures(spec.triggers, spec.contexts, list) == [] && r.error.names == Listed(spec.contexts, list).1
  {
    hide Inputs, Failures, Listed, Distinct, ContextKnown, Resolved;
    var contextCfgs := CollectContextConfigs(spec.contexts);
    if contextCfgs.Err? { return Err(contextCfgs.error); }
    var triggerCfgs := ResolveTriggers(spec.triggers, spec.contexts, contextCfgs.value);
    if triggerCfgs.Err? { return Err(triggerCfgs.error); }
    var inputs, failures := CollectTriggers(spec.triggers, spec.contexts, triggerCfgs.value, list);
    if failures != [] { return Err(SomeTriggers(failures)); }
    var contexts, failed := CollectContexts(spec.contexts, list);
    if failed != [] { return Err(SomeContexts(failed)); }
    return Ok((inputs, contexts));
  }

  // ---- what is collected ----

  /** What is reported of the triggers: each that has no source of its own or could not be listed, by name, and no other. */
  lemma {:induction false} FailuresNameTriggers(ts: seq<Trigger>, cs: seq<Context>, list: Lister, f: TriggerFailure)
    ensures f in Failures(ts, cs, list) <==> exists t :: t in ts && FailsWith(Resolved(t, cs), list, f)
  {
    if ts != [] {
      var n := |ts| - 1;
      FailuresNameTriggers(ts[..n], cs, list, f);
      FailsOrNot(Resolved(ts[n], cs), list, f);
      hide Failure, FailsWith, Resolved;
      InLast(ts);
    }
  }

  lemma FailsOrNot(t: Trigger, list: Lister, f: TriggerFailure)
    ensures Failure(t, list) == Some(f) <==> FailsWith(t, list, f)
  {
  }

  lemma InLast(ts: seq<Trigger>)
    requires ts != []
    ensures var n := |ts| - 1; forall t :: t in ts <==> t in ts[..n] || t == ts[n]
  {
    assert ts == ts[..|ts| - 1] + [ts[|ts| - 1]];
  }

  predicate FailsWith(t: Trigger, list: Lister, f: TriggerFailure) {
    && t.interval == NO_INTERVAL && f.name == t.name
    && match f
       case NoSource(_) => t.watchResource.apiVersion == ""
       case ListFailed(_) => t.watchResource.apiVersion != "" && list(t.watchResource).None?
  }

  /** If nothing failed, the contexts are collected one by one, in the order of the spec, each with its list. */
  lemma {:induction false} ContextsAreListedInOrder(cs: seq<Context>, list: Lister)
    requires Listed(cs, list).1 == []
    ensures |Listed(cs, list).0| == |cs|
    ensures forall i :: 0 <= i < |cs| ==> list(cs[i].resource).Some? && Listed(cs, list).0[i] == ContextInput(cs[i].name, list(cs[i].resource).value)
  {
    if cs != [] { ContextsAreListedInOrder(cs[..|cs| - 1], list); }
  }

  /** The names reported for contexts are those that could not be listed. */
  lemma {:induction false} FailuresNameContexts(cs: seq<Context>, list: Lister, name: string)
    ensures name in Listed(cs, list).1 <==> exists c :: c in cs && c.name == name && list(c.resource).None?
  {
    if cs != [] {
      var n := |cs| - 1;
      FailuresNameContexts(cs[..n], list, name);
      assert cs == cs[..n] + [cs[n]];
      assert forall c :: c in cs <==> c in cs[..n] || c == cs[n];
    }
  }

  /** Lists show every object once. */
  ghost predicate ListsOnce(list: Lister) {
    forall r, i, j :: list(r).Some? && 0 <= i < j < |list(r).value| ==> list(r).value[i] != list(r).value[j]
  }

  ghost predicate NoneTwice(xs: seq<Input>) { forall i, j :: 0 <= i < j < |xs| ==> xs[i] != xs[j] }

  lemma LastNameIsNew(ts: seq<Trigger>)
    requires ts != [] && Distinct(TriggerNames(ts))
    ensures var n := |ts| - 1;
            && Distinct(TriggerNames(ts[..n])) && ts[n].name !in TriggerNames(ts[..n])
            && TriggerNames(ts) == TriggerNames(ts[..n]) + [ts[n].name]
  {
    var n := |ts| - 1;
    assert forall i :: 0 <= i < n ==> TriggerNames(ts[..n])[i] == TriggerNames(ts)[i];
    assert TriggerNames(ts)[n] == ts[n].name;
  }

  /** The inputs are those of the triggers: named after them, or the one without a trigger, which is the first. */
  lemma {:induction false} InputsAreNamed(ts: seq<Trigger>, cs: seq<Context>, list: Lister)
    ensures |Inputs(ts, cs, list)| > 0 && Inputs(ts, cs, list)[0] == UNTRIGGERED
    ensures forall x :: x in Inputs(ts, cs, list) ==> x == UNTRIGGERED || x.trigger in TriggerNames(ts)
  {
    if ts != [] {
      var n := |ts| - 1;
      InputsAreNamed(ts[..n], cs, list);
      OwnNames(Resolved(ts[n], cs), list);
      hide InputsOf;
      assert TriggerNames(ts) == TriggerNames(ts[..n]) + [ts[n].name];
    }
  }

  lemma OwnNames(t: Trigger, list: Lister)
    ensures forall x :: x in InputsOf(t, list) ==> x.trigger == t.name
  {
  }

  /** No rendering is asked for twice, and the first one is that without a trigger. */
  lemma {:induction false} NothingIsCollectedTwice(ts: seq<Trigger>, cs: seq<Context>, list: Lister)
    requires Distinct(TriggerNames(ts)) && ListsOnce(list) && "" !in TriggerNames(ts)
    ensures NoneTwice(Inputs(ts, cs, list))
    ensures |Inputs(ts, cs, list)| > 0 && Inputs(ts, cs, list)[0] == UNTRIGGERED
  {
    InputsAreNamed(ts, cs, list);
    if ts != [] {
      var n := |ts| - 1;
      var t := Resolved(ts[n], cs);
      var before, own := Inputs(ts[..n], cs, list), InputsOf(t, list);
      LastNameIsNew(ts);
      InputsAreNamed(ts[..n], cs, list);
      NothingIsCollectedTwice(ts[..n], cs, list);
      OwnInputs(t, list);
      OwnNames(t, list);
      assert Inputs(ts, cs, list) == before + own && t.name == ts[n].name != "";
      hide *;
      assert forall i :: 0 <= i < |own| ==> own[i] in own;
      assert forall i :: 0 <= i < |before| ==> before[i] in before;
      JoinOnce(before, own, ts[n].name);
    }
  }

  lemma OwnInputs(t: Trigger, list: Lister)
    requires ListsOnce(list)
    ensures NoneTwice(InputsOf(t, list))
  {
  }

  lemma JoinOnce(before: seq<Input>, own: seq<Input>, name: string)
    requires NoneTwice(before) && NoneTwice(own)
    requires forall i :: 0 <= i < |before| ==> before[i].trigger != name
    requires forall i :: 0 <= i < |own| ==> own[i].trigger == name
    ensures NoneTwice(before + own)
  {
  }

  // ---- comparison with the controller ----

  /**
   What the controller renders for a request while the caches hold what is given. A request for an
   object that is gone by then is rendered with null, which is no input of the tool.
   */
  function RenderingOf(ci: InstanceCache, req: Request, holds: Resource -> Store): Option<Input> {
    if req.watched == NOTHING_WATCHED then Some(Input(req.trigger, None))
    else if req.trigger !in ci.triggerCaches then None
    else
      var o := At(holds(ci.triggerCaches[req.trigger].definition), KeyOf(req.watched));
      if o.Some? then Some(Input(req.trigger, o)) else None
  }

  ghost predicate ControllerRenders(ci: InstanceCache, sources: seq<Source>, holds: Resource -> Store, x: Input) {
    exists req :: Emitted(sources, req) && RenderingOf(ci, req, holds) == Some(x)
  }

  /** The same, read off a source. */
  predicate Renders(s: Source, holds: Resource -> Store, x: Input) {
    match s
    case Ticks(t) => x == Input(t, None)
    case Kind(dc, None) => false
    case Kind(dc, Some(t)) =>
      && x.trigger == t && x.watched.Some?
      && x.watched.value.key in holds(dc.definition) && holds(dc.definition)[x.watched.value.key] == x.watched.value
  }

  /** Objects are held under their keys and have names. */
  ghost predicate Named(holds: Resource -> Store) {
    forall r, k :: k in holds(r) ==> holds(r)[k].key == k && k.name != ""
  }

  /** What the tool's lists show is what the caches hold. */
  ghost predicate ListsCaches(list: Lister, holds: Resource -> Store) {
    forall r :: list(r).Some? ==> Enumerates(list(r).value, holds(r))
  }

  /** A source on a cache is that of the trigger it is mapped to. */
  lemma SourceCache(ci: InstanceCache, spec: Spec, sources: seq<Source>, s: Source)
    requires Built(ci, spec, sources) && s in sources && s.Kind? && s.mapped.Some?
    ensures s.mapped.value in ci.triggerCaches && ci.triggerCaches[s.mapped.value] == s.cache
  {
    hide ContextsBuilt, TriggersBuilt, Distinct;
    var n := |spec.contexts|;
    var k :| 0 <= k < |sources| && sources[k] == s;
    if k >= n { assert SourceOf(ci, spec.triggers[k - n]) == Some(sources[n + (k - n)]); }
  }

  lemma RequestsAreSources(ci: InstanceCache, spec: Spec, sources: seq<Source>, holds: Resource -> Store, x: Input)
    requires Built(ci, spec, sources) && Named(holds)
    ensures ControllerRenders(ci, sources, holds, x) <==> x == UNTRIGGERED || exists s :: s in sources && Renders(s, holds, x)
  {
    hide Built, KindOf;
    if req :| Emitted(sources, req) && RenderingOf(ci, req, holds) == Some(x) {
      if req != Request("", NOTHING_WATCHED) {
        var s :| s in sources && Emits(s, req);
        if s.Kind? { SourceCache(ci, spec, sources, s); }
        assert Renders(s, holds, x);
      }
    }
    if x == UNTRIGGERED {
      assert Emitted(sources, Request("", NOTHING_WATCHED)) && RenderingOf(ci, Request("", NOTHING_WATCHED), holds) == Some(x);
    }
    if s :| s in sources && Renders(s, holds, x) { SourceRequest(ci, spec, sources, holds, s, x); }
  }

  lemma SourceRequest(ci: InstanceCache, spec: Spec, sources: seq<Source>, holds: Resource -> Store, s: Source, x: Input)
    requires Built(ci, spec, sources) && Named(holds) && s in sources && Renders(s, holds, x)
    ensures ControllerRenders(ci, sources, holds, x)
  {
    hide Built, KindOf;
    var req: Request;
    if s.Ticks? {
      req := Request(s.trigger, NOTHING_WATCHED);
    } else {
      SourceCache(ci, spec, sources, s);
      var kind, key := KindOf(s.cache.definition), x.watched.value.key;
      req := Request(x.trigger, WatchResource(kind.version, kind.group, kind.kind, key.name, key.namespace));
      assert KeyOf(req.watched) == key;
    }
    assert Emits(s, req);
    assert Emitted(sources, req) && RenderingOf(ci, req, holds) == Some(x);
  }

  predicate SetsBoth(t: Trigger) { t.interval != NO_INTERVAL && t.watchContextResource != "" }

  lemma {:induction false} InputComesFrom(ts: seq<Trigger>, cs: seq<Context>, list: Lister, x: Input)
    ensures x in Inputs(ts, cs, list) <==> x == UNTRIGGERED || exists t :: t in ts && x in InputsOf(Resolved(t, cs), list)
  {
    if ts != [] {
      var n := |ts| - 1;
      InputComesFrom(ts[..n], cs, list, x);
      assert ts == ts[..n] + [ts[n]];
      hide InputsOf, Resolved;
      assert forall t :: t in ts <==> t in ts[..n] || t == ts[n];
    }
  }

  lemma {:induction false} NamedIsIn(cs: seq<Context>, name: string)
    requires ContextNamed(cs, name).Some?
    ensures ContextNamed(cs, name).value in cs && ContextNamed(cs, name).value.name == name
  {
    if cs[|cs| - 1].name != name { NamedIsIn(cs[..|cs| - 1], name); }
  }

  /** For a trigger that does not set both, the tool and the controller render the same. */
  lemma SameForTrigger(ci: InstanceCache, spec: Spec, sources: seq<Source>, t: Trigger, list: Lister, holds: Resource -> Store, x: Input)
    requires Built(ci, spec, sources) && ListsCaches(list, holds) && t in spec.triggers && !SetsBoth(t)
    requires ContextKnown(t, spec.contexts) && Failure(Resolved(t, spec.contexts), list).None?
    ensures x in InputsOf(Resolved(t, spec.contexts), list) <==> SourceOf(ci, t).Some? && Renders(SourceOf(ci, t).value, holds, x)
  {
    var u := Resolved(t, spec.contexts);
    assert TriggerBuilt(ci, t);
    if t.watchContextResource != "" {
      var c := ContextNamed(spec.contexts, t.watchContextResource).value;
      NamedIsIn(spec.contexts, t.watchContextResource);
      assert ci.contextCaches[c.name].definition == c.resource;
    }
    hide Built, ContextNamed;
    if t.interval == NO_INTERVAL {
      assert ci.triggerCaches[t.name].definition == u.watchResource;
      assert Enumerates(list(u.watchResource).value, holds(u.watchResource));
      WatchedInput(t.name, list(u.watchResource).value, x);
    }
  }

  lemma WatchedInput(name: string, objects: seq<Obj>, x: Input)
    ensures x in WatchedInputs(name, objects) <==> x.trigger == name && x.watched.Some? && x.watched.value in objects
  {
    if x.trigger == name && x.watched.Some? && x.watched.value in objects {
      var i :| 0 <= i < |objects| && objects[i] == x.watched.value;
      assert WatchedInputs(name, objects)[i] == x;
    }
  }

  lemma SourcesAreTriggers(ci: InstanceCache, spec: Spec, sources: seq<Source>, holds: Resource -> Store, x: Input)
    requires Built(ci, spec, sources)
    ensures (exists s :: s in sources && Renders(s, holds, x)) <==>
            exists t :: t in spec.triggers && SourceOf(ci, t).Some? && Renders(SourceOf(ci, t).value, holds, x)
  {
    hide Built, SourceOf;
    if s :| s in sources && Renders(s, holds, x) {
      var t := OriginOf(ci, spec, sources, s, holds, x);
    }
    if t :| t in spec.triggers && SourceOf(ci, t).Some? && Renders(SourceOf(ci, t).value, holds, x) {
      TriggerHasSource(ci, spec, sources, t);
    }
  }

  /** A source that renders anything comes from a trigger: those of contexts are mapped to none. */
  lemma OriginOf(ci: InstanceCache, spec: Spec, sources: seq<Source>, s: Source, holds: Resource -> Store, x: Input) returns (t: Trigger)
    requires Built(ci, spec, sources) && s in sources && Renders(s, holds, x)
    ensures t in spec.triggers && SourceOf(ci, t) == Some(s)
  {
    hide ContextsBuilt, TriggersBuilt, Distinct, SourceOf;
    var n := |spec.contexts|;
    var k :| 0 <= k < |sources| && sources[k] == s;
    assert k >= n;
    t := spec.triggers[k - n];
    assert SourceOf(ci, spec.triggers[k - n]) == Some(sources[n + (k - n)]);
  }

  lemma TriggerHasSource(ci: InstanceCache, spec: Spec, sources: seq<Source>, t: Trigger)
    requires Built(ci, spec, sources) && t in spec.triggers
    ensures SourceOf(ci, t).Some? && SourceOf(ci, t).value in sources
  {
    hide ContextsBuilt, TriggersBuilt, Distinct, SourceOf;
    var i :| 0 <= i < |spec.triggers| && spec.triggers[i] == t;
    assert SourceOf(ci, spec.triggers[i]) == Some(sources[|spec.contexts| + i]);
  }

  lemma {:induction false} NoFailures(ts: seq<Trigger>, cs: seq<Context>, list: Lister)
    ensures Failures(ts, cs, list) == [] <==> forall t :: t in ts ==> Failure(Resolved(t, cs), list).None?
  {
    if ts != [] {
      hide Failure, Resolved;
      var n := |ts| - 1;
      NoFailures(ts[..n], cs, list);
      var f := Failure(Resolved(ts[n], cs), list);
      assert Failures(ts, cs, list) == [] <==> Failures(ts[..n], cs, list) == [] && f.None?;
      hide Failures;
      assert ts == ts[..n] + [ts[n]];
    }
  }

  /** Without a trigger that sets both, the same requests are rendered. */
  lemma SameRequest(ci: InstanceCache, spec: Spec, sources: seq<Source>, list: Lister, holds: Resource -> Store, x: Input)
    requires Built(ci, spec, sources) && Collectable(spec, list) && ListsCaches(list, holds) && Named(holds)
    requires forall t :: t in spec.triggers ==> !SetsBoth(t)
    ensures x in Inputs(spec.triggers, spec.contexts, list) <==> ControllerRenders(ci, sources, holds, x)
  {
    var cs := spec.contexts;
    NoFailures(spec.triggers, cs, list);
    SourcesAreTriggers(ci, spec, sources, holds, x);
    RequestsAreSources(ci, spec, sources, holds, x);
    InputComesFrom(spec.triggers, cs, list, x);
    hide ControllerRenders, Named;
    hide Inputs, InputsOf, Resolved, Failures, Failure, Renders, SourceOf, Built;
    forall t | t in spec.triggers
      ensures x in InputsOf(Resolved(t, cs), list) <==> SourceOf(ci, t).Some? && Renders(SourceOf(ci, t).value, holds, x)
    {
      SameForTrigger(ci, spec, sources, t, list, holds, x);
    }
  }

  /** A trigger that sets both ticks in the controller, but the tool only renders the objects of its context. */
  lemma BothIsRenderedOtherwise(ci: InstanceCache, spec: Spec, sources: seq<Source>, list: Lister, holds: Resource -> Store, t: Trigger)
    requires Built(ci, spec, sources) && Collectable(spec, list) && Named(holds)
    requires t in spec.triggers && SetsBoth(t) && t.name != ""
    ensures ControllerRenders(ci, sources, holds, Input(t.name, None))
    ensures Input(t.name, None) !in Inputs(spec.triggers, spec.contexts, list)
  {
    var x, cs := Input(t.name, None), spec.contexts;
    hide Inputs, Failures, InputsOf, ContextsBuilt, TriggersBuilt, SourcesBuilt, ContextNamed, Listed;
    assert ControllerRenders(ci, sources, holds, x) by {
      hide ControllerRenders;
      SourcesAreTriggers(ci, spec, sources, holds, x);
      RequestsAreSources(ci, spec, sources, holds, x);
      assert SourceOf(ci, t) == Some(Ticks(t.name)) && Renders(Ticks(t.name), holds, x);
    }
    hide SourceOf, Renders, ControllerRenders;
    assert ContextKnown(t, cs);
    InputComesFrom(spec.triggers, cs, list, x);
    if u :| u in spec.triggers && x in InputsOf(Resolved(u, cs), list) {
      UnwatchedInput(Resolved(u, cs), list, x);
      SameNameSameTrigger(spec.triggers, t, u);
    }
  }

  lemma UnwatchedInput(t: Trigger, list: Lister, x: Input)
    requires x in InputsOf(t, list) && x.watched.None?
    ensures t.interval != NO_INTERVAL && x.trigger == t.name
  {
  }

  lemma SameNameSameTrigger(ts: seq<Trigger>, t: Trigger, u: Trigger)
    requires Distinct(TriggerNames(ts)) && t in ts && u in ts && t.name == u.name
    ensures t == u
  {
    var i :| 0 <= i < |ts| && ts[i] == t;
    var j :| 0 <= j < |ts| && ts[j] == u;
    assert TriggerNames(ts)[i] == TriggerNames(ts)[j];
  }

  /**
   For an accepted spec the tool's inputs are exactly what the controller renders for the requests its
   sources and manager emit in the same state, if and only if no trigger sets both an interval and a
   context to watch.
   */
  lemma SameRequestsIff(ci: InstanceCache, spec: Spec, sources: seq<Source>, list: Lister, holds: Resource -> Store)
    requires Built(ci, spec, sources) && Collectable(spec, list) && ListsCaches(list, holds) && Named(holds)
    requires forall t :: t in spec.triggers ==> t.name != ""
    ensures (forall x :: x in Inputs(spec.triggers, spec.contexts, list) <==> ControllerRenders(ci, sources, holds, x)) <==>
            forall t :: t in spec.triggers ==> !SetsBoth(t)
  {
    hide *;
    if forall t :: t in spec.triggers ==> !SetsBoth(t) {
      forall x: Input
        ensures x in Inputs(spec.triggers, spec.contexts, list) <==> ControllerRenders(ci, sources, holds, x)
      {
        SameRequest(ci, spec, sources, list, holds, x);
      }
    } else {
      var t :| t in spec.triggers && SetsBoth(t);
      BothIsRenderedOtherwise(ci, spec, sources, list, holds, t);
    }
  }

  lemma {:induction false} NothingFailed(cs: seq<Context>, list: Lister)
    ensures Listed(cs, list).1 == [] <==> forall c :: c in cs ==> list(c.resource).Some?
  {
    if cs != [] {
      NothingFailed(cs[..|cs| - 1], list);
      assert cs == cs[..|cs| - 1] + [cs[|cs| - 1]];
    }
  }

  lemma {:induction false} ContextNamedIff(cs: seq<Context>, name: string)
    ensures ContextNamed(cs, name).Some? <==> name in ContextNames(cs)
  {
    if cs != [] {
      var n := |cs| - 1;
      ContextNamedIff(cs[..n], name);
      assert ContextNames(cs) == ContextNames(cs[..n]) + [cs[n].name];
    }
  }

  /** Where the tool cannot list, the controller cannot build a cache, and the other way round. */
  ghost predicate FailTogether(spec: Spec, list: Lister, cluster: Cluster) {
    && (forall c :: c in spec.contexts ==>
          (list(c.resource).Some? <==> c.resource.apiVersion != "" && cluster.creates(ContextDefinition(c.name))))
    && (forall t :: t in spec.triggers ==>
          (list(t.watchResource).Some? && t.watchResource.apiVersion != "" <==>
             t.watchResource.apiVersion != "" && cluster.creates(TriggerDefinition(t.name))))
  }

  /** Then tool and controller accept the same specs, if watching succeeds and no trigger sets both. */
  lemma SameSpecsAccepted(spec: Spec, list: Lister, cluster: Cluster)
    requires FailTogether(spec, list, cluster) && (forall d :: cluster.watches(d))
    requires forall t :: t in spec.triggers ==> !SetsBoth(t)
    ensures Collectable(spec, list) <==>
            && Distinct(TriggerNames(spec.triggers)) && Distinct(ContextNames(spec.contexts))
            && WellDefined(spec, cluster)
  {
    var cs := spec.contexts;
    NothingFailed(cs, list);
    NoFailures(spec.triggers, cs, list);
    hide Failures, Listed, Distinct, ContextNamed;
    forall t | t in spec.triggers
      ensures t.watchContextResource != "" && ContextKnown(t, cs) ==> ContextNamed(cs, t.watchContextResource).value in cs
      ensures ContextNamed(cs, t.watchContextResource).Some? <==> t.watchContextResource in ContextNames(cs)
    {
      ContextNamedIff(cs, t.watchContextResource);
      if ContextNamed(cs, t.watchContextResource).Some? { NamedIsIn(cs, t.watchContextResource); }
    }
  }

  lemma {:induction false} ListedHolds(cs: seq<Context>, list: Lister, x: ContextInput)
    ensures x in Listed(cs, list).0 <==> exists c :: c in cs && x.name == c.name && list(c.resource) == Some(x.objects)
  {
    if cs != [] {
      var n := |cs| - 1;
      ListedHolds(cs[..n], list, x);
      assert cs == cs[..n] + [cs[n]];
      assert forall c :: c in cs <==> c in cs[..n] || c == cs[n];
    }
  }

  /** The contexts the tool renders with are those of the controller: one for each, with the objects of its cache. */
  lemma SameContextsRendered(ci: InstanceCache, spec: Spec, sources: seq<Source>, list: Lister, holds: Resource -> Store)
    requires Built(ci, spec, sources) && Collectable(spec, list) && ListsCaches(list, holds)
    ensures forall x :: x in Listed(spec.contexts, list).0 ==>
              x.name in ci.contextCaches && Enumerates(x.objects, holds(ci.contextCaches[x.name].definition))
    ensures forall n :: n in ci.contextCaches ==> exists x :: x in Listed(spec.contexts, list).0 && x.name == n
  {
    var inputs := Listed(spec.contexts, list).0;
    forall x | x in inputs
      ensures x.name in ci.contextCaches && Enumerates(x.objects, holds(ci.contextCaches[x.name].definition))
    {
      ListedHolds(spec.contexts, list, x);
    }
    NothingFailed(spec.contexts, list);
    forall n | n in ci.contextCaches
      ensures exists x :: x in inputs && x.name == n
    {
      var i :| 0 <= i < |spec.contexts| && ContextNames(spec.contexts)[i] == n;
      var c := spec.contexts[i];
      assert c in spec.contexts;
      ListedHolds(spec.contexts, list, ContextInput(c.name, list(c.resource).value));
      assert ContextInput(c.name, list(c.resource).value) in inputs;
    }
  }

  // ---- one world ----

  /** The tool's list of a definition's objects: none without a selector, or if the server does not answer. */
  function ToolList(api: Api, ownNamespace: string, answer: Resource -> Option<seq<Obj>>, r: Resource): Option<seq<Obj>> {
    if SelectorFor(api, r, ownNamespace).None? || answer(r).None? then None else Some(ListOf(r, answer(r).value))
  }

  /**
   Tool and controller look at the same cluster: what the server answers to the tool and what it has
   delivered to the controller's informers are the selected objects of each definition's kind.
   */
  ghost predicate OneWorld(
    api: Api, ownNamespace: string, server: Gvk -> Store, answer: Resource -> Option<seq<Obj>>, history: Resource -> seq<Step>)
  {
    && (forall kind, k :: k in server(kind) ==> k.name != "")
    && forall r ::
         match SelectorFor(api, r, ownNamespace)
         case None => history(r) == []
         case Some(s) =>
           && WellFormed(server(KindOf(r)), s)
           && StoreOf(history(r)) == OnServer(server(KindOf(r)), s)
           && (answer(r).Some? ==> Enumerates(answer(r).value, OnServer(server(KindOf(r)), s)))
  }

  lemma OneDefinition(
    api: Api, ownNamespace: string, server: Gvk -> Store, answer: Resource -> Option<seq<Obj>>, history: Resource -> seq<Step>, r: Resource)
    requires OneWorld(api, ownNamespace, server, answer, history)
    ensures ToolList(api, ownNamespace, answer, r).Some? ==>
              Enumerates(ToolList(api, ownNamespace, answer, r).value, CacheOf(r, history(r)))
    ensures forall k :: k in CacheOf(r, history(r)) ==> CacheOf(r, history(r))[k].key == k && k.name != ""
  {
    hide SelectorFor, KindOf, ListOf, Enumerates, WellFormed, OnServer;
    match SelectorFor(api, r, ownNamespace)
    case None => NothingDelivered(r);
    case Some(s) =>
      var world := server(KindOf(r));
      CacheIsSelection(r, s, world, history(r));
      StoreKeysOfCache(r, s, world, history(r));
      if answer(r).Some? { ListIsCache(r, s, world, history(r), answer(r).value); }
      hide CacheOf;
  }

  lemma NothingDelivered(r: Resource)
    ensures CacheOf(r, []) == map[]
  {
    assert FilterHistory([], NameFilter(r.matchNames, r.ignoreNames)) == [];
  }

  /**
   From the cluster to the renderings: for an accepted spec whose definitions tool and controller read
   from one cluster, the tool renders exactly what the controller renders for every request that its
   sources and manager emit and whose object is not gone, with the same contexts, if and only if no
   trigger sets both an interval and a context to watch.
   */
  lemma ToolImitatesController(
    api: Api, ownNamespace: string, server: Gvk -> Store, answer: Resource -> Option<seq<Obj>>, history: Resource -> seq<Step>,
    ci: InstanceCache, spec: Spec, sources: seq<Source>, list: Lister, holds: Resource -> Store)
    requires OneWorld(api, ownNamespace, server, answer, history)
    requires forall r :: list(r) == ToolList(api, ownNamespace, answer, r) && holds(r) == CacheOf(r, history(r))
    requires Built(ci, spec, sources) && Collectable(spec, list) && forall t :: t in spec.triggers ==> t.name != ""
    ensures (forall x :: x in Inputs(spec.triggers, spec.contexts, list) <==> ControllerRenders(ci, sources, holds, x)) <==>
            forall t :: t in spec.triggers ==> !SetsBoth(t)
    ensures forall x :: x in Listed(spec.contexts, list).0 ==>
              x.name in ci.contextCaches && Enumerates(x.objects, holds(ci.contextCaches[x.name].definition))
    ensures forall n :: n in ci.contextCaches ==> exists x :: x in Listed(spec.contexts, list).0 && x.name == n
  {
    assert ListsCaches(list, holds) && Named(holds) by {
      hide CacheOf, ToolList, Enumerates, OneWorld, Built, Collectable;
      forall r: Resource
        ensures list(r).Some? ==> Enumerates(list(r).value, holds(r))
        ensures forall k :: k in holds(r) ==> holds(r)[k].key == k && k.name != ""
      {
        OneDefinition(api, ownNamespace, server, answer, history, r);
      }
    }
    hide *;
    SameRequestsIff(ci, spec, sources, list, holds);
    SameContextsRendered(ci, spec, sources, list, holds);
  }
}
