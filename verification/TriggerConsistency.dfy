/**
 Read-after-trigger consistency. A reconcile reads the object of its trigger and lists its contexts one
 after the other, while the informers go on filling the caches. What a trigger on a context may count
 on is that both reads see its event, or something later, and that the list is not older than the object.
 */
module TriggerConsistency {
  import opened Wrappers
  import opened Fingerprint
  import opened FilteredWatch
  import opened InstanceGate

  // ---- one object over a history ----

  /** The state in which a step that concerns an object leaves it. */
  function Leaves(step: Step, key: Key): Option<Obj> {
    match step
    case Listed(items) => At(Replaced(items), key)
    case Watched(Added(o)) => Some(o)
    case Watched(Modified(o)) => Some(o)
    case Watched(_) => None
  }

  /** The last step before position hi, from lo on, that concerns the object. */
  function LastConcern(history: seq<Step>, lo: nat, hi: nat, key: Key): (r: Option<nat>)
    requires lo <= hi <= |history|
    ensures r.Some? ==> lo <= r.value < hi && Concerns(history[r.value], key)
    ensures r.Some? ==> forall k :: r.value < k < hi ==> !Concerns(history[k], key)
    ensures r.None? ==> forall k :: lo <= k < hi ==> !Concerns(history[k], key)
  {
    if lo == hi then None
    else if Concerns(history[hi - 1], key) then Some(hi - 1)
    else LastConcern(history, lo, hi - 1, key)
  }

  lemma StepLeaves(store: Store, step: Step, key: Key)
    ensures At(FilteredWatch.After(store, step), key) == if Concerns(step, key) then Leaves(step, key) else At(store, key)
  {
  }

  /** The object is as the last step that concerns it left it. */
  lemma {:induction false} StateAfter(history: seq<Step>, lo: nat, hi: nat, key: Key)
    requires lo <= hi <= |history|
    ensures var last := LastConcern(history, lo, hi, key);
            At(StoreOf(history[..hi]), key) == if last.Some? then Leaves(history[last.value], key) else At(StoreOf(history[..lo]), key)
  {
    if lo < hi {
      StateAfter(history, lo, hi - 1, key);
      assert history[..hi][..hi - 1] == history[..hi - 1];
      StepLeaves(StoreOf(history[..hi - 1]), history[hi - 1], key);
    }
  }

  // ---- reads of a cache that goes on changing ----

  /** The n-th read of a reconcile sees the store after at(n) steps, if it succeeds; later reads see no less. */
  ghost predicate Live(reader: Reader, dc: DefinitionCache, history: seq<Step>, at: nat -> nat) {
    && (forall m, n :: m <= n ==> at(m) <= at(n))
    && (forall n :: at(n) <= |history|)
    && (forall n, key :: reader.get(n, dc, key).Unavailable? || reader.get(n, dc, key) == AnswerOf(At(StoreOf(history[..at(n)]), key)))
    && (forall n :: reader.list(n, dc).Some? ==> Enumerates(reader.list(n, dc).value, StoreOf(history[..at(n)])))
  }

  lemma LiveGet(reader: Reader, dc: DefinitionCache, history: seq<Step>, at: nat -> nat, n: nat, key: Key, state: Option<Obj>)
    requires Live(reader, dc, history, at) && reader.get(n, dc, key) == AnswerOf(state)
    ensures at(n) <= |history| && At(StoreOf(history[..at(n)]), key) == state
  {
    hide StoreOf, Enumerates;
  }

  lemma LiveList(reader: Reader, dc: DefinitionCache, history: seq<Step>, at: nat -> nat, n: nat, items: seq<Obj>)
    requires Live(reader, dc, history, at) && n > TRIGGER_DATA && reader.list(n, dc) == Some(items)
    ensures at(SYNC_CHECK) <= at(TRIGGER_DATA) <= at(n) <= |history| && Enumerates(items, StoreOf(history[..at(n)]))
  {
    hide StoreOf, Enumerates;
  }

  /** A context shows an object in this state: this object under the key, or none. */
  ghost predicate Shows(context: seq<Obj>, key: Key, state: Option<Obj>) {
    match state
    case Some(o) => o in context && o.key == key
    case None => forall o :: o in context ==> o.key != key
  }

  lemma ListShowsState(context: seq<Obj>, history: seq<Step>, key: Key, state: Option<Obj>)
    requires Enumerates(context, StoreOf(history))
    ensures Shows(context, key, state) <==> At(StoreOf(history), key) == state
  {
    StoreKeys(history);
    var store := StoreOf(history);
    hide StoreOf;
    if key in store { assert store[key] in context; }
  }

  /** What a rendering for a trigger on a context was rendered from. */
  ghost predicate RendersFor(
    ci: InstanceCache, spec: Spec, sources: seq<Source>, now: Spec, t: Trigger, req: Request, reader: Reader,
    data: Option<Obj>, contexts: map<string, seq<Obj>>)
  {
    && Built(ci, spec, sources) && SameConfig(now, spec) && Emitted(sources, req)
    && t in spec.triggers && t.interval == NO_INTERVAL && t.watchContextResource != "" && req.trigger == t.name
    && Render(ci, now, req, reader) == Rendered(Some(data), contexts)
    && t.watchContextResource in contexts && t.watchContextResource in ci.contextCaches
  }

  lemma InContexts(
    ci: InstanceCache, spec: Spec, sources: seq<Source>, now: Spec, t: Trigger, req: Request, reader: Reader,
    data: Option<Obj>, contexts: map<string, seq<Obj>>)
    requires RendersFor(ci, spec, sources, now, t, req, reader, data, contexts)
    ensures t.watchContextResource in contexts && t.watchContextResource in ci.contextCaches
  {
    hide Built, SameConfig, Render, Emitted;
  }

  /** The object and the list come out of one cache, the list by a later read. */
  lemma ReadsOfOneCache(
    ci: InstanceCache, spec: Spec, sources: seq<Source>, now: Spec, t: Trigger, req: Request, reader: Reader,
    data: Option<Obj>, contexts: map<string, seq<Obj>>) returns (n: nat)
    requires RendersFor(ci, spec, sources, now, t, req, reader, data, contexts)
    ensures n > TRIGGER_DATA
    ensures reader.get(TRIGGER_DATA, ci.contextCaches[t.watchContextResource], KeyOf(req.watched)) == AnswerOf(data)
    ensures reader.list(n, ci.contextCaches[t.watchContextResource]) == Some(contexts[t.watchContextResource])
  {
    hide Built, SameConfig, Render, Emitted, NeedsSync;
    TriggerSharesCache(ci, spec, sources, t);
    SameConfigIsServed(ci, spec, sources, now, req, reader);
    var k :| ListedAt(now.contexts, ci, reader, k, t.watchContextResource, contexts[t.watchContextResource]);
    n := CONTEXTS + k;
  }

  /**
   The documented guarantee: if the request was emitted for step m of the cache's history, the trigger's
   data is what step m or a later one left of the object, and the context shows what that same step or
   a still later one left of it. So the context is never older than the data, and neither misses the event.
   */
  lemma TriggerReadsItsContext(
    ci: InstanceCache, spec: Spec, sources: seq<Source>, now: Spec, t: Trigger, req: Request, reader: Reader,
    data: Option<Obj>, contexts: map<string, seq<Obj>>, history: seq<Step>, at: nat -> nat, m: nat) returns (p: nat, q: nat)
    requires RendersFor(ci, spec, sources, now, t, req, reader, data, contexts)
    requires Live(reader, ci.contextCaches[t.watchContextResource], history, at)
    requires m < at(SYNC_CHECK) && Concerns(history[m], KeyOf(req.watched))
    ensures m <= p <= q < |history|
    ensures Concerns(history[p], KeyOf(req.watched)) && Leaves(history[p], KeyOf(req.watched)) == data
    ensures Concerns(history[q], KeyOf(req.watched))
    ensures Shows(contexts[t.watchContextResource], KeyOf(req.watched), Leaves(history[q], KeyOf(req.watched)))
  {
    InContexts(ci, spec, sources, now, t, req, reader, data, contexts);
    hide *;
    var key, context := KeyOf(req.watched), contexts[t.watchContextResource];
    var n := ReadsOfOneCache(ci, spec, sources, now, t, req, reader, data, contexts);
    LiveList(reader, ci.contextCaches[t.watchContextResource], history, at, n, context);
    LiveGet(reader, ci.contextCaches[t.watchContextResource], history, at, TRIGGER_DATA, key, data);
    p := LastConcern(history, m, at(TRIGGER_DATA), key).value;
    q := LastConcern(history, m, at(n), key).value;
    StateAfter(history, m, at(TRIGGER_DATA), key);
    StateAfter(history, m, at(n), key);
    ListShowsState(context, history[..at(n)], key, Leaves(history[q], key));
  }

  /**
   Whether the context shows exactly the trigger's data: if and only if the last step between the two
   reads that concerns the object, if there is any, left it as the data has it.
   */
  lemma ContextShowsDataIff(
    ci: InstanceCache, spec: Spec, sources: seq<Source>, now: Spec, t: Trigger, req: Request, reader: Reader,
    data: Option<Obj>, contexts: map<string, seq<Obj>>, history: seq<Step>, at: nat -> nat) returns (n: nat)
    requires RendersFor(ci, spec, sources, now, t, req, reader, data, contexts)
    requires Live(reader, ci.contextCaches[t.watchContextResource], history, at)
    ensures n > TRIGGER_DATA && at(TRIGGER_DATA) <= at(n) <= |history|
    ensures reader.list(n, ci.contextCaches[t.watchContextResource]) == Some(contexts[t.watchContextResource])
    ensures var last := LastConcern(history, at(TRIGGER_DATA), at(n), KeyOf(req.watched));
            Shows(contexts[t.watchContextResource], KeyOf(req.watched), data) <==>
            last.None? || Leaves(history[last.value], KeyOf(req.watched)) == data
  {
    InContexts(ci, spec, sources, now, t, req, reader, data, contexts);
    hide *;
    var key, context := KeyOf(req.watched), contexts[t.watchContextResource];
    n := ReadsOfOneCache(ci, spec, sources, now, t, req, reader, data, contexts);
    LiveList(reader, ci.contextCaches[t.watchContextResource], history, at, n, context);
    LiveGet(reader, ci.contextCaches[t.watchContextResource], history, at, TRIGGER_DATA, key, data);
    StateAfter(history, at(TRIGGER_DATA), at(n), key);
    ListShowsState(context, history[..at(n)], key, data);
  }

  /** If every list answers, a request for an object that is found and is no library is rendered. */
  lemma FoundIsRendered(ci: InstanceCache, spec: Spec, sources: seq<Source>, now: Spec, req: Request, reader: Reader, o: Obj)
    requires Built(ci, spec, sources) && SameConfig(now, spec) && Emitted(sources, req)
    requires req.watched != NOTHING_WATCHED && !WatchesLibrary(req.watched)
    requires (forall n, dc :: reader.list(n, dc).Some?) && forall dc :: reader.get(TRIGGER_DATA, dc, KeyOf(req.watched)) == Found(o)
    ensures Render(ci, now, req, reader).Rendered? && Render(ci, now, req, reader).trigger == Some(Some(o))
  {
    RendersIff(ci, spec, sources, now, req, reader);
    forall i | 0 <= i < |now.contexts|
      ensures Listable(now.contexts, i, ci, reader)
    {
      BuiltServesContext(ci, spec, sources, now, now.contexts[i]);
    }
    hide Built, SameConfig, Emitted, Render, Listable;
  }

  /**
   The two reads do differ at times: whatever was built, and for every trigger on a context, there are a
   history and moments of reading for which an object is delivered to a rendering whose context is empty.
   */
  lemma DeletedBetweenReads(
    ci: InstanceCache, spec: Spec, sources: seq<Source>, now: Spec, t: Trigger, req: Request, c: Context, o: Obj)
    returns (reader: Reader, history: seq<Step>, at: nat -> nat, contexts: map<string, seq<Obj>>)
    requires Built(ci, spec, sources) && SameConfig(now, spec) && Emitted(sources, req)
    requires t in spec.triggers && t.interval == NO_INTERVAL && t.watchContextResource != "" && req.trigger == t.name
    requires c in now.contexts && c.name == t.watchContextResource && c.resource.apiVersion != ""
    requires req.watched != NOTHING_WATCHED && !WatchesLibrary(req.watched) && o.key == KeyOf(req.watched)
    ensures RendersFor(ci, spec, sources, now, t, req, reader, Some(o), contexts) && contexts[t.watchContextResource] == []
    ensures Live(reader, ci.contextCaches[t.watchContextResource], history, at)
    ensures history == [Watched(Added(o)), Watched(Deleted(o))]
  {
    reader, history, at := ReadAroundDeletion(o);
    TriggerSharesCache(ci, spec, sources, t);
    hide Built, SameConfig, Emitted, Live, Render, WatchesLibrary;
    FoundIsRendered(ci, spec, sources, now, req, reader, o);
    SameConfigIsServed(ci, spec, sources, now, req, reader);
    contexts := Render(ci, now, req, reader).contexts;
    var name := t.watchContextResource;
    var k :| ListedAt(now.contexts, ci, reader, k, name, contexts[name]);
  }

  /** Reads of a cache before and after the deletion of its only object. */
  lemma ReadAroundDeletion(o: Obj) returns (reader: Reader, history: seq<Step>, at: nat -> nat)
    ensures forall dc :: Live(reader, dc, history, at)
    ensures forall dc :: reader.get(TRIGGER_DATA, dc, o.key) == Found(o)
    ensures forall n: nat, dc :: reader.list(n, dc).Some? && (n > TRIGGER_DATA ==> reader.list(n, dc) == Some([]))
    ensures history == [Watched(Added(o)), Watched(Deleted(o))]
  {
    history := [Watched(Added(o)), Watched(Deleted(o))];
    at := n => if n <= TRIGGER_DATA then 1 else 2;
    var get: (nat, DefinitionCache, Key) -> Reading := (n, d, key) => if n <= TRIGGER_DATA && key == o.key then Found(o) else NotFound;
    var list: (nat, DefinitionCache) -> Option<seq<Obj>> := (n, d) => Some(if n <= TRIGGER_DATA then [o] else []);
    reader := Reader(get, list, key => None);
    AddedThenDeleted(o);
    assert history[..1] == [Watched(Added(o))] && history[..2] == history;
    hide StoreOf;
  }

  lemma AddedThenDeleted(o: Obj)
    ensures StoreOf([Watched(Added(o))]) == map[o.key := o] && StoreOf([Watched(Added(o)), Watched(Deleted(o))]) == map[]
  {
    var history := [Watched(Added(o)), Watched(Deleted(o))];
    assert history[..1] == [Watched(Added(o))] && history[..1][..0] == [];
    assert StoreOf(history[..1]) == map[o.key := o];
  }
}
