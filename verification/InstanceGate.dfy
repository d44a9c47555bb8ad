/**
 How an instance controller's caches and watches are built from a ManagedResource, how each reconcile
 is gated on the fingerprint of what they were built from, and which caches a reconcile looks up.
 */
module InstanceGate {
  import opened Wrappers
  import opened Unstructured
  import opened FilteredWatch
  import opened Fingerprint

  /** A cache for one resource definition. Two definitions never share one unless the code shares the object. */
  class DefinitionCache {
    const definition: Resource

    constructor (definition: Resource)
      ensures this.definition == definition
    {
      this.definition := definition;
    }
  }

  datatype InstanceCache = InstanceCache(triggerCaches: map<string, DefinitionCache>, contextCaches: map<string, DefinitionCache>)

  /** The zero duration, as durations are written. */
  const NO_INTERVAL := "0s"

  datatype Definition = ContextDefinition(name: string) | TriggerDefinition(name: string)

  datatype CacheError =
    | DuplicateTrigger(name: string)
    | DuplicateContext(name: string)
    | ContextWithoutResource(name: string)
    | TriggerWithoutSource(name: string)
    | ContextNotFound(context: string, trigger: string)
    | CacheFailed(definition: Definition)
    | WatchFailed(definition: Definition)

  /** Which calls into the cluster libraries succeed; any of them may fail. */
  datatype Cluster = Cluster(creates: Definition -> bool, watches: Definition -> bool)

  /** A source registered with the instance controller. Events of contexts enqueue nothing. */
  datatype Source = Ticks(trigger: string) | Kind(cache: DefinitionCache, mapped: Option<string>)

  predicate Distinct(names: seq<string>) { forall i, j :: 0 <= i < j < |names| ==> names[i] != names[j] }

  function TriggerNames(ts: seq<Trigger>): (r: seq<string>)
    ensures |r| == |ts| && forall i :: 0 <= i < |ts| ==> r[i] == ts[i].name
  {
    seq(|ts|, i requires 0 <= i < |ts| => ts[i].name)
  }

  function ContextNames(cs: seq<Context>): (r: seq<string>)
    ensures |r| == |cs| && forall i :: 0 <= i < |cs| ==> r[i] == cs[i].name
  {
    seq(|cs|, i requires 0 <= i < |cs| => cs[i].name)
  }

  /** The first element that occurred before is found, if there is one. */
  method FindFirstDuplicate(names: seq<string>) returns (found: bool, duplicate: string)
    ensures found <==> !Distinct(names)
    ensures found ==> exists j :: 0 <= j < |names| && names[j] == duplicate && duplicate in names[..j] && Distinct(names[..j])
  {
    var seen: set<string> := {};
    duplicate := "";
    for i := 0 to |names|
      invariant Distinct(names[..i])
      invariant seen == set x | x in names[..i]
    {
      var v := names[i];
      if v in seen {
        var k :| 0 <= k < i && names[..i][k] == v;
        assert names[k] == names[i];
        return true, v;
      }
      assert names[..i + 1] == names[..i] + [v];
      seen := seen + {v};
    }
    assert names[..|names|] == names;
    return false, duplicate;
  }

  // ---- what building the caches may run into ----

  function ContextError(c: Context, cluster: Cluster): (r: Option<CacheError>)
    ensures r.Some? ==> !r.value.DuplicateTrigger? && !r.value.DuplicateContext?
  {
    if c.resource.apiVersion == "" then Some(ContextWithoutResource(c.name))
    else if !cluster.creates(ContextDefinition(c.name)) then Some(CacheFailed(ContextDefinition(c.name)))
    else if !cluster.watches(ContextDefinition(c.name)) then Some(WatchFailed(ContextDefinition(c.name)))
    else None
  }

  function TriggerError(t: Trigger, contexts: seq<string>, cluster: Cluster): (r: Option<CacheError>)
    ensures r.Some? ==> !r.value.DuplicateTrigger? && !r.value.DuplicateContext?
  {
    var d := TriggerDefinition(t.name);
    if t.interval != NO_INTERVAL then if cluster.watches(d) then None else Some(WatchFailed(d))
    else if t.watchContextResource != "" && t.watchContextResource !in contexts then
      Some(ContextNotFound(t.watchContextResource, t.name))
    else if t.watchContextResource == "" && t.watchResource.apiVersion == "" then Some(TriggerWithoutSource(t.name))
    else if t.watchContextResource == "" && !cluster.creates(d) then Some(CacheFailed(d))
    else if !cluster.watches(d) then Some(WatchFailed(d))
    else None
  }

  function FirstContextError(cs: seq<Context>, cluster: Cluster): (r: Option<CacheError>)
    ensures r.Some? ==> !r.value.DuplicateTrigger? && !r.value.DuplicateContext?
  {
    if cs == [] then None
    else if ContextError(cs[0], cluster).Some? then ContextError(cs[0], cluster)
    else FirstContextError(cs[1..], cluster)
  }

  function FirstTriggerError(ts: seq<Trigger>, contexts: seq<string>, cluster: Cluster): (r: Option<CacheError>)
    ensures r.Some? ==> !r.value.DuplicateTrigger? && !r.value.DuplicateContext?
  {
    if ts == [] then None
    else if TriggerError(ts[0], contexts, cluster).Some? then TriggerError(ts[0], contexts, cluster)
    else FirstTriggerError(ts[1..], contexts, cluster)
  }

  /** The first problem of the contexts, or else of the triggers. */
  function BuildError(spec: Spec, cluster: Cluster): (r: Option<CacheError>)
    ensures r.Some? ==> !r.value.DuplicateTrigger? && !r.value.DuplicateContext?
  {
    var first := FirstContextError(spec.contexts, cluster);
    if first.Some? then first else FirstTriggerError(spec.triggers, ContextNames(spec.contexts), cluster)
  }

  /** What cacheFor asks of a spec and of the cluster, said of all definitions at once. */
  predicate WellDefined(spec: Spec, cluster: Cluster) {
    && (forall c :: c in spec.contexts ==>
          var d := ContextDefinition(c.name); c.resource.apiVersion != "" && cluster.creates(d) && cluster.watches(d))
    && (forall t :: t in spec.triggers ==>
          var d := TriggerDefinition(t.name);
          && cluster.watches(d)
          && (t.interval == NO_INTERVAL && t.watchContextResource != "" ==> t.watchContextResource in ContextNames(spec.contexts))
          && (t.interval == NO_INTERVAL && t.watchContextResource == "" ==> t.watchResource.apiVersion != "" && cluster.creates(d)))
  }

  lemma {:induction false} NoContextError(cs: seq<Context>, cluster: Cluster)
    ensures FirstContextError(cs, cluster).None? <==> forall c :: c in cs ==> ContextError(c, cluster).None?
  {
    if cs != [] {
      assert forall c :: c in cs <==> c == cs[0] || c in cs[1..];
      NoContextError(cs[1..], cluster);
    }
  }

  lemma {:induction false} NoTriggerError(ts: seq<Trigger>, contexts: seq<string>, cluster: Cluster)
    ensures FirstTriggerError(ts, contexts, cluster).None? <==> forall t :: t in ts ==> TriggerError(t, contexts, cluster).None?
  {
    if ts != [] {
      assert forall t :: t in ts <==> t == ts[0] || t in ts[1..];
      NoTriggerError(ts[1..], contexts, cluster);
    }
  }

  /** Caches can be built for exactly the well-defined specs. */
  lemma BuildsIffWellDefined(spec: Spec, cluster: Cluster)
    ensures BuildError(spec, cluster).None? <==> WellDefined(spec, cluster)
  {
    NoContextError(spec.contexts, cluster);
    NoTriggerError(spec.triggers, ContextNames(spec.contexts), cluster);
  }

  /**
   An error names a definition that has it: a context without resource, a trigger without a source or on
   an unknown context, or a definition whose cache or watch could not be made.
   */
  lemma ErrorsNameTheirCause(spec: Spec, cluster: Cluster)
    requires BuildError(spec, cluster).Some?
    ensures match BuildError(spec, cluster).value
            case ContextWithoutResource(n) => exists c :: c in spec.contexts && c.name == n && c.resource.apiVersion == ""
            case TriggerWithoutSource(n) =>
              exists t :: t in spec.triggers && t.name == n && t.interval == NO_INTERVAL && t.watchContextResource == "" && t.watchResource.apiVersion == ""
            case ContextNotFound(c, n) =>
              c !in ContextNames(spec.contexts) && exists t :: t in spec.triggers && t.name == n && t.watchContextResource == c
            case CacheFailed(d) => !cluster.creates(d) && IsDefinedIn(spec, d)
            case WatchFailed(d) => !cluster.watches(d) && IsDefinedIn(spec, d)
            case _ => false
  {
    if FirstContextError(spec.contexts, cluster).Some? {
      var c := ContextWithError(spec.contexts, cluster);
    } else {
      var t := TriggerWithError(spec.triggers, ContextNames(spec.contexts), cluster);
    }
  }

  ghost predicate IsDefinedIn(spec: Spec, d: Definition) {
    match d
    case ContextDefinition(n) => exists c :: c in spec.contexts && c.name == n
    case TriggerDefinition(n) => exists t :: t in spec.triggers && t.name == n
  }

  lemma {:induction false} ContextWithError(cs: seq<Context>, cluster: Cluster) returns (c: Context)
    requires FirstContextError(cs, cluster).Some?
    ensures c in cs && ContextError(c, cluster) == FirstContextError(cs, cluster)
  {
    if ContextError(cs[0], cluster).Some? { c := cs[0]; } else { c := ContextWithError(cs[1..], cluster); }
  }

  lemma {:induction false} TriggerWithError(ts: seq<Trigger>, contexts: seq<string>, cluster: Cluster) returns (t: Trigger)
    requires FirstTriggerError(ts, contexts, cluster).Some?
    ensures t in ts && TriggerError(t, contexts, cluster) == FirstTriggerError(ts, contexts, cluster)
  {
    if TriggerError(ts[0], contexts, cluster).Some? { t := ts[0]; } else { t := TriggerWithError(ts[1..], contexts, cluster); }
  }

  // ---- what is built ----

  ghost predicate ContextsBuilt(ci: InstanceCache, cs: seq<Context>) {
    && (forall name :: name in ci.contextCaches <==> name in ContextNames(cs))
    && (forall c :: c in cs ==> c.name in ci.contextCaches && ci.contextCaches[c.name].definition == c.resource)
    && (forall m, n :: m in ci.contextCaches && n in ci.contextCaches && m != n ==> ci.contextCaches[m] != ci.contextCaches[n])
  }

  /** A trigger on a context reads the very cache of that context, any other one a cache of its own. */
  ghost predicate TriggerBuilt(ci: InstanceCache, t: Trigger) {
    && (t.name in ci.triggerCaches <==> t.interval == NO_INTERVAL)
    && (t.interval == NO_INTERVAL && t.watchContextResource != "" ==>
          t.watchContextResource in ci.contextCaches && ci.triggerCaches[t.name] == ci.contextCaches[t.watchContextResource])
    && (t.interval == NO_INTERVAL && t.watchContextResource == "" ==>
          ci.triggerCaches[t.name].definition == t.watchResource && ci.triggerCaches[t.name] !in ci.contextCaches.Values)
  }

  ghost predicate TriggersBuilt(ci: InstanceCache, ts: seq<Trigger>) {
    && (forall name :: name in ci.triggerCaches ==> name in TriggerNames(ts))
    && (forall t :: t in ts ==> TriggerBuilt(ci, t))
  }

  function SourceOf(ci: InstanceCache, t: Trigger): Option<Source> {
    if t.interval != NO_INTERVAL then Some(Ticks(t.name))
    else if t.name in ci.triggerCaches then Some(Kind(ci.triggerCaches[t.name], Some(t.name)))
    else None
  }

  /** The sources are those of the contexts, then those of the triggers, each in order. */
  ghost predicate SourcesBuilt(ci: InstanceCache, cs: seq<Context>, ts: seq<Trigger>, sources: seq<Source>) {
    && |sources| == |cs| + |ts|
    && (forall i :: 0 <= i < |cs| ==> cs[i].name in ci.contextCaches && sources[i] == Kind(ci.contextCaches[cs[i].name], None))
    && (forall i :: 0 <= i < |ts| ==> SourceOf(ci, ts[i]) == Some(sources[|cs| + i]))
  }

  ghost predicate Built(ci: InstanceCache, spec: Spec, sources: seq<Source>) {
    && Distinct(TriggerNames(spec.triggers)) && Distinct(ContextNames(spec.contexts))
    && ContextsBuilt(ci, spec.contexts) && TriggersBuilt(ci, spec.triggers)
    && SourcesBuilt(ci, spec.contexts, spec.triggers, sources)
  }

  lemma AddContext(ci: InstanceCache, cs: seq<Context>, c: Context, dc: DefinitionCache, sources: seq<Source>)
    requires ContextsBuilt(ci, cs) && SourcesBuilt(ci, cs, [], sources)
    requires c.name !in ContextNames(cs) && dc.definition == c.resource
    requires forall n :: n in ci.contextCaches ==> ci.contextCaches[n] != dc
    ensures var cj := ci.(contextCaches := ci.contextCaches[c.name := dc]);
            ContextsBuilt(cj, cs + [c]) && SourcesBuilt(cj, cs + [c], [], sources + [Kind(dc, None)])
  {
    var cj := ci.(contextCaches := ci.contextCaches[c.name := dc]);
    var ds := cs + [c];
    assert forall i :: 0 <= i < |cs| ==> ContextNames(cs)[i] == cs[i].name;
    assert forall i :: 0 <= i < |ds| ==> ds[i].name == ContextNames(ds)[i] && ds[i] == if i < |cs| then cs[i] else c;
    assert ContextNames(ds) == ContextNames(cs) + [c.name];
  }

  lemma AddTrigger(ci: InstanceCache, cs: seq<Context>, ts: seq<Trigger>, t: Trigger, dc: Option<DefinitionCache>, sources: seq<Source>)
    requires ContextsBuilt(ci, cs) && TriggersBuilt(ci, ts) && SourcesBuilt(ci, cs, ts, sources) && t.name !in TriggerNames(ts)
    requires dc.None? <==> t.interval != NO_INTERVAL
    requires dc.Some? && t.watchContextResource != "" ==>
               t.watchContextResource in ci.contextCaches && dc.value == ci.contextCaches[t.watchContextResource]
    requires dc.Some? && t.watchContextResource == "" ==> dc.value.definition == t.watchResource && dc.value !in ci.contextCaches.Values
    ensures var cj := if dc.None? then ci else ci.(triggerCaches := ci.triggerCaches[t.name := dc.value]);
            var source := if dc.None? then Ticks(t.name) else Kind(dc.value, Some(t.name));
            ContextsBuilt(cj, cs) && TriggersBuilt(cj, ts + [t]) && SourcesBuilt(cj, cs, ts + [t], sources + [source])
  {
    var cj := if dc.None? then ci else ci.(triggerCaches := ci.triggerCaches[t.name := dc.value]);
    var us := ts + [t];
    assert TriggerNames(us) == TriggerNames(ts) + [t.name];
    assert t.name !in ci.triggerCaches;
    forall u | u in ts
      ensures TriggerBuilt(cj, u) && SourceOf(cj, u) == SourceOf(ci, u)
    {
      var i :| 0 <= i < |ts| && ts[i] == u;
      assert TriggerNames(ts)[i] == u.name;
      assert TriggerBuilt(ci, u);
    }
    assert TriggerBuilt(cj, t);
    assert forall i :: 0 <= i < |us| ==> us[i] == if i < |ts| then ts[i] else t;
  }

  lemma NextNameIsNew(cs: seq<Context>, i: nat)
    requires Distinct(ContextNames(cs)) && i < |cs|
    ensures cs[i].name !in ContextNames(cs[..i])
  {
    assert forall j :: 0 <= j < i ==> ContextNames(cs[..i])[j] == ContextNames(cs)[j];
    assert ContextNames(cs)[i] == cs[i].name;
  }

  /** The contexts' part of cacheFor. */
  method BuildContexts(contexts: seq<Context>, cluster: Cluster) returns (r: Result<InstanceCache, CacheError>, sources: seq<Source>)
    requires Distinct(ContextNames(contexts))
    ensures (if r.Err? then Some(r.error) else None) == FirstContextError(contexts, cluster)
    ensures r.Ok? ==> r.value.triggerCaches == map[] && ContextsBuilt(r.value, contexts)
    ensures r.Ok? ==> SourcesBuilt(r.value, contexts, [], sources)
    ensures r.Ok? ==> forall n :: n in r.value.contextCaches ==> fresh(r.value.contextCaches[n])
  {
    var ci := InstanceCache(map[], map[]);
    sources := [];
    for i := 0 to |contexts|
      invariant FirstContextError(contexts, cluster) == FirstContextError(contexts[i..], cluster)
      invariant ci.triggerCaches == map[] && ContextsBuilt(ci, contexts[..i])
      invariant SourcesBuilt(ci, contexts[..i], [], sources)
      invariant forall n :: n in ci.contextCaches ==> fresh(ci.contextCaches[n])
    {
      hide ContextsBuilt, SourcesBuilt, Distinct, ContextNames;
      var con := contexts[i];
      assert contexts[i..][0] == con && contexts[i..][1..] == contexts[i + 1..];
      if con.resource.apiVersion == "" { return Err(ContextWithoutResource(con.name)), sources; }
      if !cluster.creates(ContextDefinition(con.name)) { return Err(CacheFailed(ContextDefinition(con.name))), sources; }
      var dc := new DefinitionCache(con.resource);
      if !cluster.watches(ContextDefinition(con.name)) { return Err(WatchFailed(ContextDefinition(con.name))), sources; }
      NextNameIsNew(contexts, i);
      AddContext(ci, contexts[..i], con, dc, sources);
      assert contexts[..i + 1] == contexts[..i] + [con];
      ci := ci.(contextCaches := ci.contextCaches[con.name := dc]);
      sources := sources + [Kind(dc, None)];
    }
    assert contexts[..|contexts|] == contexts;
    return Ok(ci), sources;
  }

  /** The triggers' part of cacheFor. */
  method BuildTriggers(triggers: seq<Trigger>, contexts: seq<Context>, cluster: Cluster, built: InstanceCache, contextSources: seq<Source>)
    returns (r: Result<InstanceCache, CacheError>, sources: seq<Source>)
    requires Distinct(TriggerNames(triggers)) && built.triggerCaches == map[]
    requires ContextsBuilt(built, contexts) && SourcesBuilt(built, contexts, [], contextSources)
    ensures (if r.Err? then Some(r.error) else None) == FirstTriggerError(triggers, ContextNames(contexts), cluster)
    ensures r.Ok? ==> r.value.contextCaches == built.contextCaches && ContextsBuilt(r.value, contexts) && TriggersBuilt(r.value, triggers)
    ensures r.Ok? ==> SourcesBuilt(r.value, contexts, triggers, sources)
    ensures r.Ok? ==> forall n :: n in r.value.triggerCaches ==>
                        r.value.triggerCaches[n] in built.contextCaches.Values || fresh(r.value.triggerCaches[n])
  {
    var ci := built;
    sources := contextSources;
    ghost var names := ContextNames(contexts);
    for i := 0 to |triggers|
      invariant FirstTriggerError(triggers, names, cluster) == FirstTriggerError(triggers[i..], names, cluster)
      invariant ci.contextCaches == built.contextCaches && ContextsBuilt(ci, contexts) && TriggersBuilt(ci, triggers[..i])
      invariant SourcesBuilt(ci, contexts, triggers[..i], sources)
      invariant forall n :: n in ci.triggerCaches ==> ci.triggerCaches[n] in built.contextCaches.Values || fresh(ci.triggerCaches[n])
    {
      var trigger := triggers[i];
      var d := TriggerDefinition(trigger.name);
      assert forall n :: n in ci.contextCaches <==> n in names;
      hide ContextsBuilt, TriggersBuilt, SourcesBuilt;
      assert triggers[i..][0] == trigger && triggers[i..][1..] == triggers[i + 1..];
      assert trigger.name !in TriggerNames(triggers[..i]) by {
        assert forall j :: 0 <= j < i ==> TriggerNames(triggers[..i])[j] == TriggerNames(triggers)[j];
      }
      assert triggers[..i + 1] == triggers[..i] + [trigger];
      if trigger.interval != NO_INTERVAL {
        if !cluster.watches(d) { return Err(WatchFailed(d)), sources; }
        AddTrigger(ci, contexts, triggers[..i], trigger, None, sources);
        sources := sources + [Ticks(trigger.name)];
        continue;
      }
      var dc: DefinitionCache;
      if trigger.watchContextResource != "" {
        if trigger.watchContextResource !in ci.contextCaches {
          return Err(ContextNotFound(trigger.watchContextResource, trigger.name)), sources;
        }
        dc := ci.contextCaches[trigger.watchContextResource];
      } else {
        if trigger.watchResource.apiVersion == "" { return Err(TriggerWithoutSource(trigger.name)), sources; }
        if !cluster.creates(d) { return Err(CacheFailed(d)), sources; }
        dc := new DefinitionCache(trigger.watchResource);
      }
      if !cluster.watches(d) { return Err(WatchFailed(d)), sources; }
      AddTrigger(ci, contexts, triggers[..i], trigger, Some(dc), sources);
      ci := ci.(triggerCaches := ci.triggerCaches[trigger.name := dc]);
      sources := sources + [Kind(dc, Some(trigger.name))];
    }
    assert triggers[..|triggers|] == triggers;
    return Ok(ci), sources;
  }

  /** cacheFor: the caches and sources of a spec, or the first thing that is wrong with it. */
  method CacheFor(spec: Spec, cluster: Cluster) returns (r: Result<InstanceCache, CacheError>, sources: seq<Source>)
    ensures r.Err? && r.error.DuplicateTrigger? <==> !Distinct(TriggerNames(spec.triggers))
    ensures r.Err? && r.error.DuplicateContext? <==> Distinct(TriggerNames(spec.triggers)) && !Distinct(ContextNames(spec.contexts))
    ensures Distinct(TriggerNames(spec.triggers)) && Distinct(ContextNames(spec.contexts)) ==>
              (if r.Err? then Some(r.error) else None) == BuildError(spec, cluster)
    ensures r.Ok? ==> Built(r.value, spec, sources)
    ensures r.Ok? ==> forall n :: n in r.value.contextCaches ==> fresh(r.value.contextCaches[n])
    ensures r.Ok? ==> forall n :: n in r.value.triggerCaches ==> fresh(r.value.triggerCaches[n])
  {
    sources := [];
    var found, e := FindFirstDuplicate(TriggerNames(spec.triggers));
    if found { return Err(DuplicateTrigger(e)), sources; }
    found, e := FindFirstDuplicate(ContextNames(spec.contexts));
    if found { return Err(DuplicateContext(e)), sources; }
    hide ContextsBuilt, TriggersBuilt, SourcesBuilt, Distinct;
    r, sources := BuildContexts(spec.contexts, cluster);
    if r.Err? { return; }
    r, sources := BuildTriggers(spec.triggers, spec.contexts, cluster, r.value, sources);
  }

  // ---- requests ----

  datatype WatchResource = WatchResource(apiVersion: string, group: string, kind: string, name: string, namespace: string)

  const NOTHING_WATCHED := WatchResource("", "", "", "", "")

  datatype Request = Request(trigger: string, watched: WatchResource)

  /** staticMapFunc: the request for an object of a kind. */
  function StaticMap(trigger: string, kind: Gvk, key: Key): Request {
    Request(trigger, WatchResource(kind.version, kind.group, kind.kind, key.name, key.namespace))
  }

  /** The requests a source may enqueue: an object has a name, and its own kind is that of the cache that delivers it. */
  predicate Emits(s: Source, r: Request) {
    match s
    case Ticks(t) => r == Request(t, NOTHING_WATCHED)
    case Kind(dc, mapped) =>
      && mapped.Some? && r.watched.name != ""
      && r == StaticMap(mapped.value, KindOf(dc.definition), Key(r.watched.namespace, r.watched.name))
  }

  /** The manager's own request names no trigger; all others come from the registered sources. */
  ghost predicate Emitted(sources: seq<Source>, r: Request) {
    r == Request("", NOTHING_WATCHED) || exists s :: s in sources && Emits(s, r)
  }

  // ---- one reconcile ----

  datatype Observed = Unreadable | Missing | Deleting | Present(generation: int, spec: Spec)

  datatype Reading = Found(o: Obj) | NotFound | Unavailable

  /**
   The reads of a reconcile in their order. Each is a read of its own: between two of them caches may
   change. Context i of the spec is listed at CONTEXTS + i.
   */
  const SYNC_CHECK: nat := 0
  const TRIGGER_DATA: nat := 1
  const CONTEXTS: nat := 2

  /** What each read of a trigger or context cache finds, and the generation of a library the controller itself sees. */
  datatype Reader = Reader(
    get: (nat, DefinitionCache, Key) -> Reading,
    list: (nat, DefinitionCache) -> Option<seq<Obj>>,
    library: Key -> Option<int>)

  datatype RenderError =
    | NoManagedResource
    | CacheNotFound(name: string)
    | InformerMissing(name: string)
    | TriggerUnreadable
    | LibraryUnreadable
    | ContextUnreadable(name: string)

  datatype Outcome =
    | Skipped
    | Waiting
    | Failed(error: RenderError)
    | Rendered(trigger: Option<Option<Obj>>, contexts: map<string, seq<Obj>>)

  function ClientForTrigger(ci: InstanceCache, name: string): Result<DefinitionCache, RenderError> {
    if name in ci.triggerCaches then Ok(ci.triggerCaches[name]) else Err(CacheNotFound(name))
  }

  function ClientForContext(ci: InstanceCache, name: string): Result<DefinitionCache, RenderError> {
    if name in ci.contextCaches then Ok(ci.contextCaches[name]) else Err(CacheNotFound(name))
  }

  /** A cache fails reads of any kind but its own. */
  function Read(moment: nat, dc: DefinitionCache, gvk: Gvk, key: Key, reader: Reader, name: string): Result<Reading, RenderError> {
    if KindOf(dc.definition) != gvk then Err(InformerMissing(name)) else Ok(reader.get(moment, dc, key))
  }

  function KeyOf(w: WatchResource): Key { Key(w.namespace, w.name) }

  function WatchedKind(w: WatchResource): Gvk { Gvk(w.group, w.apiVersion, w.kind) }

  /** What a reconcile reads for a request is the object the request was made for, in its kind. */
  lemma RequestsNameTheirObjects(trigger: string, kind: Gvk, key: Key)
    requires key.name != ""
    ensures var r := StaticMap(trigger, kind, key);
            r.trigger == trigger && r.watched != NOTHING_WATCHED && KeyOf(r.watched) == key && WatchedKind(r.watched) == kind
  {
  }

  /** The controller's own version of the kind, in which it reads libraries. */
  const LIBRARY_KIND := Gvk("espejote.io", "v1alpha1", "JsonnetLibrary")

  predicate WatchesLibrary(w: WatchResource) { w.group == LIBRARY_KIND.group && w.kind == LIBRARY_KIND.kind }

  /** jsonnetLibraryCacheNeedsSync: the version of the watched kind is not looked at. */
  function NeedsSync(req: Request, ci: InstanceCache, reader: Reader): Result<bool, RenderError> {
    if !WatchesLibrary(req.watched) then Ok(false)
    else
      var tc :- ClientForTrigger(ci, req.trigger);
      var r :- Read(SYNC_CHECK, tc, LIBRARY_KIND, KeyOf(req.watched), reader, req.trigger);
      var own := reader.library(KeyOf(req.watched));
      if !r.Found? || own.None? then Err(LibraryUnreadable) else Ok(r.o.generation != own.value)
  }

  /** renderTriggers: no data without a watched object, and null for one that is gone. */
  function TriggerData(req: Request, ci: InstanceCache, reader: Reader): Result<Option<Option<Obj>>, RenderError> {
    if req.watched == NOTHING_WATCHED then Ok(None)
    else
      var tc :- ClientForTrigger(ci, req.trigger);
      var r :- Read(TRIGGER_DATA, tc, WatchedKind(req.watched), KeyOf(req.watched), reader, req.trigger);
      match r
      case Found(o) => Ok(Some(Some(o)))
      case NotFound => Ok(Some(None))
      case Unavailable => Err(TriggerUnreadable)
  }

  function ListContext(moment: nat, c: Context, ci: InstanceCache, reader: Reader): Result<seq<Obj>, RenderError> {
    var dc :- ClientForContext(ci, c.name);
    if KindOf(dc.definition) != KindOf(c.resource) then Err(InformerMissing(c.name))
    else if reader.list(moment, dc).None? then Err(ContextUnreadable(c.name))
    else Ok(reader.list(moment, dc).value)
  }

  /** The data of the contexts from the i-th on, added to what was collected before. */
  function ContextData(cs: seq<Context>, i: nat, ci: InstanceCache, reader: Reader, acc: map<string, seq<Obj>>)
    : Result<map<string, seq<Obj>>, RenderError>
    requires i <= |cs|
    decreases |cs| - i
  {
    if i == |cs| then Ok(acc)
    else if cs[i].resource.apiVersion == "" then ContextData(cs, i + 1, ci, reader, acc)
    else
      var objects :- ListContext(CONTEXTS + i, cs[i], ci, reader);
      ContextData(cs, i + 1, ci, reader, acc[cs[i].name := objects])
  }

  method RenderContexts(cs: seq<Context>, ci: InstanceCache, reader: Reader)
    returns (r: Result<map<string, seq<Obj>>, RenderError>)
    ensures r == ContextData(cs, 0, ci, reader, map[])
  {
    var contexts: map<string, seq<Obj>> := map[];
    for i := 0 to |cs|
      invariant ContextData(cs, 0, ci, reader, map[]) == ContextData(cs, i, ci, reader, contexts)
    {
      if cs[i].resource.apiVersion == "" { continue; }
      var objects := ListContext(CONTEXTS + i, cs[i], ci, reader);
      if objects.Err? { return Err(objects.error); }
      contexts := contexts[cs[i].name := objects.value];
    }
    return Ok(contexts);
  }

  /** What the instance reconciler remembers of the configuration its caches were built from. */
  datatype Config = Config(hash: string, generation: int)

  /** The gate: the generation is remembered only with an unchanged fingerprint. */
  function Gate(c: Config, o: Observed, hash: string -> string): (Config, bool) {
    if !o.Present? then (c, false)
    else if c.generation == o.generation then (c, true)
    else if c.hash != hash(Preimage(o.spec)) then (c, false)
    else (c.(generation := o.generation), true)
  }

  /** What a reconcile that passed the gate renders from. */
  function Render(ci: InstanceCache, spec: Spec, req: Request, reader: Reader): (out: Outcome)
    ensures !out.Skipped?
    ensures out.Rendered? ==> NeedsSync(req, ci, reader) == Ok(false) && TriggerData(req, ci, reader) == Ok(out.trigger)
  {
    var sync := NeedsSync(req, ci, reader);
    if sync.Err? then Failed(sync.error)
    else if sync.value then Waiting
    else
      var trigger := TriggerData(req, ci, reader);
      if trigger.Err? then Failed(trigger.error)
      else
        var contexts := ContextData(spec.contexts, 0, ci, reader, map[]);
        if contexts.Err? then Failed(contexts.error) else Rendered(trigger.value, contexts.value)
  }

  function Reconciled(c: Config, ci: InstanceCache, o: Observed, req: Request, reader: Reader, hash: string -> string): (Config, Outcome) {
    var (c', pass) := Gate(c, o, hash);
    (c', if pass then Render(ci, o.spec, req, reader) else if o.Unreadable? then Failed(NoManagedResource) else Skipped)
  }

  class Reconciler {
    var started: bool
    var configHash: string
    var configGeneration: int
    const cache: InstanceCache

    constructor (hash: string, generation: int, cache: InstanceCache)
      ensures !started && configHash == hash && configGeneration == generation && this.cache == cache
    {
      started, configHash, configGeneration, this.cache := false, hash, generation, cache;
    }

    method Reconcile(o: Observed, req: Request, reader: Reader, hash: string -> string) returns (out: Outcome)
      modifies this
      ensures started
      ensures (Config(configHash, configGeneration), out) ==
              Reconciled(old(Config(configHash, configGeneration)), cache, o, req, reader, hash)
    {
      started := true;
      if o.Unreadable? { return Failed(NoManagedResource); }
      if o.Missing? || o.Deleting? { return Skipped; }
      if configGeneration != o.generation {
        if configHash != hash(Preimage(o.spec)) { return Skipped; }
        configGeneration := o.generation;
      }
      var sync := NeedsSync(req, cache, reader);
      if sync.Err? { return Failed(sync.error); }
      if sync.value { return Waiting; }
      var trigger := TriggerData(req, cache, reader);
      if trigger.Err? { return Failed(trigger.error); }
      var contexts := RenderContexts(o.spec.contexts, cache, reader);
      if contexts.Err? { return Failed(contexts.error); }
      return Rendered(trigger.value, contexts.value);
    }
  }

  // ---- whole runs ----

  datatype Event = Event(observed: Observed, request: Request, reader: Reader)

  /** The remembered configuration after a run of reconciles. */
  function After(c: Config, ci: InstanceCache, events: seq<Event>, hash: string -> string): Config {
    if events == [] then c
    else
      var e := events[|events| - 1];
      Reconciled(After(c, ci, events[..|events| - 1], hash), ci, e.observed, e.request, e.reader, hash).0
  }

  /** One generation of a ManagedResource is one spec. */
  ghost predicate FollowsGenerations(events: seq<Event>, specOf: int -> Spec) {
    forall e :: e in events && e.observed.Present? ==> e.observed.spec == specOf(e.observed.generation)
  }

  /** The instance as ensureInstanceControllerFor creates it from a generation of the resource. */
  function Created(generation: int, specOf: int -> Spec, hash: string -> string): Config {
    Config(hash(Preimage(specOf(generation))), generation)
  }

  lemma {:induction false} RememberedMatches(ci: InstanceCache, events: seq<Event>, g: int, specOf: int -> Spec, hash: string -> string)
    requires FollowsGenerations(events, specOf)
    ensures var c := After(Created(g, specOf, hash), ci, events, hash);
            c.hash == hash(Preimage(specOf(g))) && hash(Preimage(specOf(c.generation))) == c.hash
  {
    if events != [] { RememberedMatches(ci, events[..|events| - 1], g, specOf, hash); }
  }

  /**
   Over whole runs the gate is exact: a reconcile of a resource that is there is let through if and
   only if its fingerprint is the one the caches were built for.
   */
  lemma GateIsExact(ci: InstanceCache, events: seq<Event>, o: Observed, g: int, specOf: int -> Spec, hash: string -> string)
    requires FollowsGenerations(events, specOf) && o.Present? && o.spec == specOf(o.generation)
    ensures Gate(After(Created(g, specOf, hash), ci, events, hash), o, hash).1 <==>
            hash(Preimage(o.spec)) == hash(Preimage(specOf(g)))
  {
    RememberedMatches(ci, events, g, specOf, hash);
  }

  /** The assumption is needed: a recreated resource that reuses a generation is let through with any spec. */
  lemma ReusedGenerationPasses(ci: InstanceCache, g: int, specOf: int -> Spec, spec: Spec, hash: string -> string)
    requires hash(Preimage(spec)) != hash(Preimage(specOf(g)))
    ensures Gate(After(Created(g, specOf, hash), ci, [], hash), Present(g, spec), hash).1
    ensures !Gate(After(Created(g, specOf, hash), ci, [], hash), Present(g + 1, spec), hash).1
  {
  }

  /**
   What the gate remembers: the generation it let through last. That one passes again with any spec, however
   the reconciles in between went; what it refuses leaves no trace.
   */
  lemma LastPassedPassesAgain(c: Config, o: Observed, later: seq<Observed>, spec: Spec, hash: string -> string)
    requires o.Present? && Gate(c, o, hash).1
    requires forall i :: 0 <= i < |later| ==> !Gate(Gate(c, o, hash).0, later[i], hash).1
    ensures var d := Gated(Gate(c, o, hash).0, later, hash);
            d == Gate(c, o, hash).0 && d.generation == o.generation && Gate(d, Present(o.generation, spec), hash).1
  {
    RefusedLeavesNoTrace(Gate(c, o, hash).0, later, hash);
  }

  /** The remembered configuration after some versions of the resource came to the gate. */
  function Gated(c: Config, os: seq<Observed>, hash: string -> string): Config {
    if os == [] then c else Gate(Gated(c, os[..|os| - 1], hash), os[|os| - 1], hash).0
  }

  lemma {:induction false} RefusedLeavesNoTrace(c: Config, os: seq<Observed>, hash: string -> string)
    requires forall i :: 0 <= i < |os| ==> !Gate(c, os[i], hash).1
    ensures Gated(c, os, hash) == c
  {
    if os != [] { RefusedLeavesNoTrace(c, os[..|os| - 1], hash); }
  }

  /** No other configuration has this one's fingerprint by accident. */
  ghost predicate NoCollision(hash: string -> string, spec: Spec) {
    forall s: Spec :: hash(Preimage(s)) == hash(Preimage(spec)) ==> Preimage(s) == Preimage(spec)
  }

  /** A spec with the same configuration finds a cache of the right kind for everything it looks up. */
  lemma BuiltServesContext(ci: InstanceCache, spec: Spec, sources: seq<Source>, now: Spec, c: Context)
    requires Built(ci, spec, sources) && SameConfig(now, spec) && c in now.contexts
    ensures c.name in ci.contextCaches && KindOf(ci.contextCaches[c.name].definition) == KindOf(c.resource)
  {
    var i :| 0 <= i < |now.contexts| && now.contexts[i] == c;
    assert NormalContext(now.contexts[i]) == NormalContext(spec.contexts[i]);
    assert spec.contexts[i] in spec.contexts;
    hide TriggersBuilt, SourcesBuilt;
  }

  lemma BuiltServesTrigger(ci: InstanceCache, spec: Spec, sources: seq<Source>, req: Request)
    requires Built(ci, spec, sources) && Emitted(sources, req) && req.watched != NOTHING_WATCHED
    ensures req.trigger in ci.triggerCaches
    ensures KindOf(ci.triggerCaches[req.trigger].definition) == Gvk(req.watched.group, req.watched.apiVersion, req.watched.kind)
  {
    hide TriggersBuilt, ContextsBuilt;
    var s :| s in sources && Emits(s, req);
    var k :| 0 <= k < |sources| && sources[k] == s;
    if k >= |spec.contexts| {
      var t := spec.triggers[k - |spec.contexts|];
      assert SourceOf(ci, t) == Some(sources[|spec.contexts| + (k - |spec.contexts|)]);
    }
  }

  /** The objects are what the context's own cache listed when it was that context's turn. */
  ghost predicate ListedAt(cs: seq<Context>, ci: InstanceCache, reader: Reader, i: nat, name: string, objects: seq<Obj>) {
    i < |cs| && cs[i].name == name && name in ci.contextCaches && reader.list(CONTEXTS + i, ci.contextCaches[name]) == Some(objects)
  }

  /** Reading the contexts fails for no other reason than a failed list, and yields what the contexts' caches list. */
  lemma {:induction false} ContextsServed(cs: seq<Context>, i: nat, ci: InstanceCache, reader: Reader, acc: map<string, seq<Obj>>)
    requires i <= |cs|
    requires forall c :: c in cs ==> c.name in ci.contextCaches && KindOf(ci.contextCaches[c.name].definition) == KindOf(c.resource)
    requires forall n :: n in acc ==> exists k :: ListedAt(cs, ci, reader, k, n, acc[n])
    ensures var r := ContextData(cs, i, ci, reader, acc);
            && (r.Err? ==> r.error.ContextUnreadable?)
            && (r.Ok? ==> forall n :: n in r.value ==> exists k :: ListedAt(cs, ci, reader, k, n, r.value[n]))
            && (r.Ok? ==> forall n :: n in acc ==> n in r.value)
            && (r.Ok? ==> forall k :: i <= k < |cs| && cs[k].resource.apiVersion != "" ==> cs[k].name in r.value)
    decreases |cs| - i
  {
    if i < |cs| {
      var c := cs[i];
      assert c in cs;
      hide KindOf;
      if c.resource.apiVersion == "" {
        ContextsServed(cs, i + 1, ci, reader, acc);
      } else if reader.list(CONTEXTS + i, ci.contextCaches[c.name]).Some? {
        var more := acc[c.name := reader.list(CONTEXTS + i, ci.contextCaches[c.name]).value];
        assert ListedAt(cs, ci, reader, i, c.name, more[c.name]);
        assert ListContext(CONTEXTS + i, c, ci, reader) == Ok(more[c.name]);
        ContextsServed(cs, i + 1, ci, reader, more);
      }
    }
  }

  /** A trigger on some other version of JsonnetLibrary than the controller's own. */
  predicate WatchesOtherLibraryVersion(w: WatchResource) { WatchesLibrary(w) && w.apiVersion != LIBRARY_KIND.version }

  /**
   A reconcile with the configuration the caches were built from never misses a cache, for any request
   its sources or the manager emit, and renders each context from that context's cache. It misses an
   informer only, and then always, for libraries watched in another version than the controller's.
   */
  lemma SameConfigIsServed(ci: InstanceCache, spec: Spec, sources: seq<Source>, now: Spec, req: Request, reader: Reader)
    requires Built(ci, spec, sources) && SameConfig(now, spec) && Emitted(sources, req)
    ensures var out := Render(ci, now, req, reader);
            && (out.Failed? ==> !out.error.CacheNotFound?)
            && (out.Failed? && out.error.InformerMissing? <==> WatchesOtherLibraryVersion(req.watched))
            && (out.Rendered? ==> forall n :: n in out.contexts ==> exists k :: ListedAt(now.contexts, ci, reader, k, n, out.contexts[n]))
            && (out.Rendered? ==> forall c :: c in now.contexts && c.resource.apiVersion != "" ==> c.name in out.contexts)
            && (out.Rendered? ==> (out.trigger.None? <==> req.watched == NOTHING_WATCHED))
  {
    hide Built, SameConfig, ContextData, KindOf, Emitted;
    forall c | c in now.contexts
      ensures c.name in ci.contextCaches && KindOf(ci.contextCaches[c.name].definition) == KindOf(c.resource)
    {
      BuiltServesContext(ci, spec, sources, now, c);
    }
    ContextsServed(now.contexts, 0, ci, reader, map[]);
    if req.watched != NOTHING_WATCHED { BuiltServesTrigger(ci, spec, sources, req); }
  }

  /** The answer a cache gives for an object it holds or does not. */
  function AnswerOf(o: Option<Obj>): Reading { if o.Some? then Reading.Found(o.value) else Reading.NotFound }

  /** The context's turn to be listed comes out well. */
  predicate Listable(cs: seq<Context>, i: nat, ci: InstanceCache, reader: Reader)
    requires i < |cs|
  {
    cs[i].resource.apiVersion != "" ==>
      cs[i].name in ci.contextCaches && reader.list(CONTEXTS + i, ci.contextCaches[cs[i].name]).Some?
  }

  lemma {:induction false} ContextsReadIff(cs: seq<Context>, i: nat, ci: InstanceCache, reader: Reader, acc: map<string, seq<Obj>>)
    requires i <= |cs|
    requires forall c :: c in cs ==> c.name in ci.contextCaches && KindOf(ci.contextCaches[c.name].definition) == KindOf(c.resource)
    ensures ContextData(cs, i, ci, reader, acc).Ok? <==> forall k :: i <= k < |cs| ==> Listable(cs, k, ci, reader)
    decreases |cs| - i
  {
    if i < |cs| {
      var c := cs[i];
      assert c in cs;
      hide KindOf;
      if c.resource.apiVersion == "" {
        ContextsReadIff(cs, i + 1, ci, reader, acc);
      } else if Listable(cs, i, ci, reader) {
        var objects := ListContext(CONTEXTS + i, c, ci, reader);
        ContextsReadIff(cs, i + 1, ci, reader, acc[c.name := objects.value]);
      }
    }
  }

  /** Nothing is watched, or what is watched is no library, or trigger and controller see the same generation of it. */
  predicate InSync(ci: InstanceCache, req: Request, reader: Reader) {
    WatchesLibrary(req.watched) ==>
      && req.trigger in ci.triggerCaches
      && var seen := reader.get(SYNC_CHECK, ci.triggerCaches[req.trigger], KeyOf(req.watched));
         seen.Found? && reader.library(KeyOf(req.watched)) == Some(seen.o.generation)
  }

  /** The controller sees the library, but in another generation than the trigger. */
  predicate OutOfSync(ci: InstanceCache, req: Request, reader: Reader) {
    && WatchesLibrary(req.watched) && req.trigger in ci.triggerCaches
    && var seen, own := reader.get(SYNC_CHECK, ci.triggerCaches[req.trigger], KeyOf(req.watched)), reader.library(KeyOf(req.watched));
       seen.Found? && own.Some? && own.value != seen.o.generation
  }

  /**
   When a reconcile with the configuration the caches were built from renders, and with which data: if and
   only if a watched library is in sync, the trigger's read did not break down and every context was listed. A
   deleted object is rendered as nothing, not as an error. It waits only for a library that is out of sync.
   */
  lemma RendersIff(ci: InstanceCache, spec: Spec, sources: seq<Source>, now: Spec, req: Request, reader: Reader)
    requires Built(ci, spec, sources) && SameConfig(now, spec) && Emitted(sources, req) && !WatchesOtherLibraryVersion(req.watched)
    ensures req.watched != NOTHING_WATCHED ==> req.trigger in ci.triggerCaches
    ensures var out := Render(ci, now, req, reader);
            && (out.Rendered? <==>
                  && InSync(ci, req, reader)
                  && (req.watched != NOTHING_WATCHED ==>
                        !reader.get(TRIGGER_DATA, ci.triggerCaches[req.trigger], KeyOf(req.watched)).Unavailable?)
                  && forall i :: 0 <= i < |now.contexts| ==> Listable(now.contexts, i, ci, reader))
            && (out.Waiting? <==> OutOfSync(ci, req, reader))
            && (out.Rendered? && req.watched != NOTHING_WATCHED ==>
                  && out.trigger.Some?
                  && reader.get(TRIGGER_DATA, ci.triggerCaches[req.trigger], KeyOf(req.watched)) == AnswerOf(out.trigger.value))
  {
    forall c | c in now.contexts
      ensures c.name in ci.contextCaches && KindOf(ci.contextCaches[c.name].definition) == KindOf(c.resource)
    {
      BuiltServesContext(ci, spec, sources, now, c);
    }
    ContextsReadIff(now.contexts, 0, ci, reader, map[]);
    if req.watched != NOTHING_WATCHED {
      BuiltServesTrigger(ci, spec, sources, req);
      DataMeans(ci, req, reader);
    } else {
      assert TriggerData(req, ci, reader) == Ok(None);
    }
    SyncMeans(ci, req, reader);
    hide Built, SameConfig, ContextData, KindOf, Emitted, Listable, NeedsSync, TriggerData, InSync, OutOfSync, WatchesOtherLibraryVersion;
  }

  lemma SyncMeans(ci: InstanceCache, req: Request, reader: Reader)
    requires !WatchesOtherLibraryVersion(req.watched)
    requires req.watched != NOTHING_WATCHED ==>
               req.trigger in ci.triggerCaches && KindOf(ci.triggerCaches[req.trigger].definition) == WatchedKind(req.watched)
    ensures NeedsSync(req, ci, reader) == Ok(false) <==> InSync(ci, req, reader)
    ensures NeedsSync(req, ci, reader) == Ok(true) <==> OutOfSync(ci, req, reader)
  {
    hide KindOf;
  }

  lemma DataMeans(ci: InstanceCache, req: Request, reader: Reader)
    requires req.watched != NOTHING_WATCHED && req.trigger in ci.triggerCaches
    requires KindOf(ci.triggerCaches[req.trigger].definition) == WatchedKind(req.watched)
    ensures var seen, data := reader.get(TRIGGER_DATA, ci.triggerCaches[req.trigger], KeyOf(req.watched)), TriggerData(req, ci, reader);
            && (data.Ok? <==> !seen.Unavailable?)
            && (data.Ok? ==> data.value.Some? && seen == AnswerOf(data.value.value))
  {
    hide KindOf;
  }

  lemma GateIsSameConfig(ci: InstanceCache, events: seq<Event>, e: Event, g: int, specOf: int -> Spec, hash: string -> string)
    requires NoCollision(hash, specOf(g)) && FollowsGenerations(events + [e], specOf) && e.observed.Present?
    ensures Gate(After(Created(g, specOf, hash), ci, events, hash), e.observed, hash).1 <==> SameConfig(e.observed.spec, specOf(g))
  {
    var spec := e.observed.spec;
    assert e in events + [e] && forall x :: x in events ==> x in events + [e];
    GateIsExact(ci, events, e.observed, g, specOf, hash);
    hide SameConfig, Preimage, After, Gate, FollowsGenerations;
    PreimageIsDecodable(spec, specOf(g));
  }

  /**
   Over whole runs of one instance: whatever requests its sources and the manager emit and whatever
   versions of the resource it sees, it renders only configurations with the fingerprint text its
   caches were built from, skips all others, never fails for a missing cache, and fails for a missing
   informer exactly where it would render for a library watched in another version.
   */
  lemma InstanceRunIsServed(ci: InstanceCache, sources: seq<Source>, events: seq<Event>, e: Event, g: int, specOf: int -> Spec, hash: string -> string)
    requires Built(ci, specOf(g), sources) && NoCollision(hash, specOf(g))
    requires FollowsGenerations(events + [e], specOf) && Emitted(sources, e.request)
    ensures var out := Reconciled(After(Created(g, specOf, hash), ci, events, hash), ci, e.observed, e.request, e.reader, hash).1;
            && (out.Rendered? || out.Waiting? ==> e.observed.Present? && SameConfig(e.observed.spec, specOf(g)))
            && (e.observed.Present? ==> (out.Skipped? <==> !SameConfig(e.observed.spec, specOf(g))))
            && (e.observed.Unreadable? ==> out == Failed(NoManagedResource))
            && (e.observed.Missing? || e.observed.Deleting? ==> out.Skipped?)
            && (out.Failed? ==> !out.error.CacheNotFound?)
            && (out.Failed? && out.error.InformerMissing? <==>
                  e.observed.Present? && SameConfig(e.observed.spec, specOf(g)) && WatchesOtherLibraryVersion(e.request.watched))
  {
    if e.observed.Present? {
      var spec := e.observed.spec;
      GateIsSameConfig(ci, events, e, g, specOf, hash);
      hide SameConfig, Preimage, After, Built, Emitted, Gate, Render, NoCollision, FollowsGenerations, WatchesOtherLibraryVersion;
      if SameConfig(spec, specOf(g)) { SameConfigIsServed(ci, specOf(g), sources, spec, e.request, e.reader); }
    }
  }

  /** A trigger on a context and that context have one cache object, not two equal ones. */
  lemma TriggerSharesCache(ci: InstanceCache, spec: Spec, sources: seq<Source>, t: Trigger)
    requires Built(ci, spec, sources) && t in spec.triggers && t.interval == NO_INTERVAL && t.watchContextResource != ""
    ensures t.watchContextResource in ci.contextCaches && t.name in ci.triggerCaches
    ensures ci.triggerCaches[t.name] == ci.contextCaches[t.watchContextResource]
  {
    hide ContextsBuilt, SourcesBuilt, Distinct;
    assert TriggerBuilt(ci, t);
  }
}
