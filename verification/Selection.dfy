/**
 What a resource definition selects: the cache the controller keeps for it, and the lists and single
 reads with which the command line tool imitates that cache; and which requests the tool renders.
 */
module Selection {
  import opened Wrappers
  import opened Unstructured
  import opened Fingerprint
  import opened FilteredWatch
  import opened InstanceGate

  /** What the cluster's discovery and the label selector library answer. */
  datatype Api = Api(namespaced: Gvk -> Option<bool>, parseLabels: LabelSelector -> Option<map<string, string> -> bool>)

  /** What is asked of the API server: field selectors, where they are set, and a label selector. */
  datatype ServerSelector = ServerSelector(
    name: Option<string>, namespace: Option<string>, labels: map<string, string> -> bool, namespaced: bool)

  /** A definition without namespace selects in the ManagedResource's own, one with an empty namespace in all. */
  function SelectorFor(api: Api, r: Resource, ownNamespace: string): Option<ServerSelector> {
    match api.namespaced(KindOf(r))
    case None => None
    case Some(namespaced) =>
      var ns := r.namespace.GetOr(ownNamespace);
      var labels := if r.labelSelector.None? then Some(_ => true) else api.parseLabels(r.labelSelector.value);
      if labels.None? then None
      else Some(ServerSelector(if r.name != "" then Some(r.name) else None,
                               if namespaced && ns != "" then Some(ns) else None,
                               labels.value, namespaced))
  }

  predicate FieldsMatch(s: ServerSelector, key: Key) {
    && (s.name.Some? ==> key.name == s.name.value)
    && (s.namespace.Some? ==> key.namespace == s.namespace.value)
  }

  predicate Selects(s: ServerSelector, o: Obj) { FieldsMatch(s, o.key) && s.labels(o.labels) }

  /** All objects of the definition's kind; those of a cluster-scoped kind have no namespace. */
  predicate WellFormed(world: Store, s: ServerSelector) {
    forall k :: k in world ==> world[k].key == k && (!s.namespaced ==> k.namespace == "")
  }

  function OnServer(world: Store, s: ServerSelector): Store { map k | k in world && Selects(s, world[k]) :: world[k] }

  function Transform(r: Resource, o: Obj): Obj {
    if r.stripManagedFields.GetOr(true) then o.(managedFields := "") else o
  }

  // ---- the controller's cache ----

  predicate FiltersNames(r: Resource) { r.matchNames != [] || r.ignoreNames != [] }

  /** The cache after some lists and watch events of the selected objects; the informer is wrapped only if names are given. */
  function CacheOf(r: Resource, history: seq<Step>): Store {
    var store := StoreOf(if FiltersNames(r) then FilterHistory(history, NameFilter(r.matchNames, r.ignoreNames)) else history);
    map k | k in store :: Transform(r, store[k])
  }

  /** The namespace of a key does not matter for a cluster-scoped kind, to the cache as to the server. */
  function Scoped(key: Key, s: ServerSelector): Key { if s.namespaced then key else key.(namespace := "") }

  // ---- the command line tool's reader ----

  function FilterFunc(r: Resource): Obj -> bool { if FiltersNames(r) then NameFilter(r.matchNames, r.ignoreNames) else _ => true }

  /** filterFunc */
  predicate Passes(r: Resource, o: Obj) { FilterFunc(r)(o) }

  function ListOf(r: Resource, items: seq<Obj>): seq<Obj> {
    if items == [] then [] else
    ListOf(r, items[..|items| - 1]) + if Passes(r, items[|items| - 1]) then [Transform(r, items[|items| - 1])] else []
  }

  /** objectSelectingReader.List, once the server has answered. */
  method List(r: Resource, items: seq<Obj>) returns (filtered: seq<Obj>)
    ensures filtered == ListOf(r, items)
  {
    filtered := [];
    for i := 0 to |items|
      invariant filtered == ListOf(r, items[..i])
    {
      var obj := items[i];
      assert items[..i + 1][..i] == items[..i];
      if !Passes(r, obj) { continue; }
      filtered := filtered + [Transform(r, obj)];
    }
    assert items[..|items|] == items;
  }

  /** The object a caller of Get passes in to be filled. */
  class Target {
    var o: Obj

    constructor (o: Obj)
      ensures this.o == o
    {
      this.o := o;
    }
  }

  function Got(r: Resource, s: ServerSelector, world: Store, key: Key): Option<Obj> {
    if !FieldsMatch(s, key) || Scoped(key, s) !in world then None
    else
      var o := world[Scoped(key, s)];
      if s.labels(o.labels) && Passes(r, o) then Some(Transform(r, o)) else None
  }

  /** objectSelectingReader.Get. The target is overwritten as soon as the server has the object, selected or not. */
  method Get(r: Resource, s: ServerSelector, world: Store, key: Key, target: Target) returns (found: bool)
    modifies target
    ensures found <==> Got(r, s, world, key).Some?
    ensures found ==> Got(r, s, world, key) == Some(target.o)
    ensures !found && target.o != old(target.o) ==> FieldsMatch(s, key) && Scoped(key, s) in world && target.o == world[Scoped(key, s)]
  {
    if !FieldsMatch(s, key) { return false; }
    if Scoped(key, s) !in world { return false; }
    target.o := world[Scoped(key, s)];
    if !s.labels(target.o.labels) { return false; }
    if !Passes(r, target.o) { return false; }
    target.o := Transform(r, target.o);
    return true;
  }

  // ---- agreement ----

  /** With or without the wrapped informer, the store is the selected objects that pass. */
  lemma CacheIsFiltered(r: Resource, history: seq<Step>)
    ensures var store := FilterStore(StoreOf(history), FilterFunc(r)); CacheOf(r, history) == map k | k in store :: Transform(r, store[k])
  {
    var f := FilterFunc(r);
    if FiltersNames(r) {
      NameFilterCommutes(r.matchNames, r.ignoreNames);
      assert StoreOf(FilterHistory(history, f)) == FilterStore(StoreOf(history), f);
    } else {
      assert FilterStore(StoreOf(history), f) == StoreOf(history);
    }
  }

  /** What the cache holds, said without histories. */
  lemma CacheIsSelection(r: Resource, s: ServerSelector, world: Store, history: seq<Step>)
    requires WellFormed(world, s) && StoreOf(history) == OnServer(world, s)
    ensures CacheOf(r, history).Keys == set k | k in world && Selects(s, world[k]) && Passes(r, world[k])
    ensures forall k :: k in CacheOf(r, history) ==> CacheOf(r, history)[k] == Transform(r, world[k])
  {
    CacheIsFiltered(r, history);
    hide CacheOf, Transform, Selects, StoreOf, FilterFunc;
  }

  ghost predicate ComesFrom(r: Resource, items: seq<Obj>, p: Obj) { exists o :: o in items && Passes(r, o) && Transform(r, o) == p }

  /** A listed object is the transformed one of an object that passes. */
  lemma {:induction false} ListedIsFiltered(r: Resource, items: seq<Obj>, p: Obj)
    ensures p in ListOf(r, items) <==> ComesFrom(r, items, p)
  {
    if items != [] {
      var n := |items| - 1;
      ListedIsFiltered(r, items[..n], p);
      assert forall o :: o in items <==> o in items[..n] || o == items[n] by { assert items == items[..n] + [items[n]]; }
      hide Transform, Passes;
      assert items[n] in items;
    }
  }

  lemma {:induction false} ListedKeysDiffer(r: Resource, items: seq<Obj>)
    requires forall i, j :: 0 <= i < j < |items| ==> items[i].key != items[j].key
    ensures var out := ListOf(r, items); forall i, j :: 0 <= i < j < |out| ==> out[i].key != out[j].key
  {
    if items != [] {
      var n := |items| - 1;
      var o, before := items[n], ListOf(r, items[..n]);
      ListedKeysDiffer(r, items[..n]);
      forall i | 0 <= i < |before|
        ensures before[i].key != o.key
      {
        ListedIsFiltered(r, items[..n], before[i]);
        var q :| q in items[..n] && Passes(r, q) && Transform(r, q) == before[i];
      }
    }
  }

  lemma TransformKeepsKey(r: Resource, o: Obj)
    ensures Transform(r, o).key == o.key
  {
  }

  lemma ListedIffCached(r: Resource, s: ServerSelector, world: Store, history: seq<Step>, items: seq<Obj>, p: Obj)
    requires WellFormed(world, s) && StoreOf(history) == OnServer(world, s) && Enumerates(items, OnServer(world, s))
    ensures p in ListOf(r, items) <==> p.key in CacheOf(r, history) && CacheOf(r, history)[p.key] == p
  {
    CacheIsSelection(r, s, world, history);
    var cache := CacheOf(r, history);
    hide CacheOf, StoreOf, ListOf, Passes, Selects, Transform;
    ListedIsFiltered(r, items, p);
    if p in ListOf(r, items) {
      var o :| o in items && Passes(r, o) && Transform(r, o) == p;
      TransformKeepsKey(r, o);
    }
    if p.key in cache && cache[p.key] == p {
      assert OnServer(world, s)[p.key] == world[p.key];
      assert world[p.key] in items;
    }
  }

  /** The tool lists exactly what the controller's cache holds. */
  lemma ListIsCache(r: Resource, s: ServerSelector, world: Store, history: seq<Step>, items: seq<Obj>)
    requires WellFormed(world, s) && StoreOf(history) == OnServer(world, s) && Enumerates(items, OnServer(world, s))
    ensures Enumerates(ListOf(r, items), CacheOf(r, history))
  {
    ListedKeysDiffer(r, items);
    hide CacheOf, StoreOf, ListOf, OnServer, WellFormed;
    forall p: Obj
      ensures p in ListOf(r, items) <==> p.key in CacheOf(r, history) && CacheOf(r, history)[p.key] == p
    {
      ListedIffCached(r, s, world, history, items, p);
    }
  }

  /** A single read finds exactly what the cache holds under that key, and the same object. */
  lemma GetIsCache(r: Resource, s: ServerSelector, world: Store, history: seq<Step>, key: Key)
    requires WellFormed(world, s) && StoreOf(history) == OnServer(world, s) && (!s.namespaced ==> s.namespace.None?)
    ensures Got(r, s, world, key) == At(CacheOf(r, history), Scoped(key, s))
  {
    CacheIsSelection(r, s, world, history);
  }

  /** There is nothing to select with exactly if the cluster does not know the kind or the label selector cannot be read. */
  lemma SelectorFailsIff(api: Api, r: Resource, ownNamespace: string)
    ensures SelectorFor(api, r, ownNamespace).None? <==>
              api.namespaced(KindOf(r)).None? || (r.labelSelector.Some? && api.parseLabels(r.labelSelector.value).None?)
  {
  }

  lemma SelectorsFitTheirScope(api: Api, r: Resource, ownNamespace: string)
    requires SelectorFor(api, r, ownNamespace).Some?
    ensures var s := SelectorFor(api, r, ownNamespace).value; !s.namespaced ==> s.namespace.None?
  {
  }

  /** Get finds an object if and only if List contains it under that key. */
  lemma GetIsList(api: Api, r: Resource, ownNamespace: string, s: ServerSelector, world: Store, items: seq<Obj>, key: Key)
    requires SelectorFor(api, r, ownNamespace) == Some(s)
    requires WellFormed(world, s) && Enumerates(items, OnServer(world, s))
    ensures Got(r, s, world, key).Some? <==> exists o :: o in ListOf(r, items) && o.key == Scoped(key, s)
    ensures Got(r, s, world, key).Some? ==> Got(r, s, world, key).value in ListOf(r, items)
  {
    var history := [Listed(items)];
    assert StoreOf(history) == Replaced(items) by { assert history[..0] == []; }
    EnumerationReplaces(items, OnServer(world, s));
    ListIsCache(r, s, world, history, items);
    SelectorsFitTheirScope(api, r, ownNamespace);
    GetIsCache(r, s, world, history, key);
    hide CacheOf, Got, StoreOf, OnServer, ListOf, SelectorFor;
    StoreKeysOfCache(r, s, world, history);
  }

  lemma StoreKeysOfCache(r: Resource, s: ServerSelector, world: Store, history: seq<Step>)
    requires WellFormed(world, s) && StoreOf(history) == OnServer(world, s)
    ensures forall k :: k in CacheOf(r, history) ==> CacheOf(r, history)[k].key == k
  {
    CacheIsSelection(r, s, world, history);
  }

  lemma {:induction false} EnumerationReplaces(items: seq<Obj>, store: Store)
    requires Enumerates(items, store) && forall k :: k in store ==> store[k].key == k
    ensures Replaced(items) == store
  {
    ReplacedHolds(items);
    forall k | k in store
      ensures k in Replaced(items)
    {
      assert store[k] in items;
    }
  }

  lemma {:induction false} ReplacedHolds(items: seq<Obj>)
    requires forall i, j :: 0 <= i < j < |items| ==> items[i].key != items[j].key
    ensures forall o :: o in items ==> o.key in Replaced(items) && Replaced(items)[o.key] == o
    ensures forall k :: k in Replaced(items) ==> Replaced(items)[k] in items && Replaced(items)[k].key == k
  {
    if items != [] {
      var n := |items| - 1;
      ReplacedHolds(items[..n]);
      assert items == items[..n] + [items[n]];
    }
  }

  /**
   What the cache of a definition holds, in the words of the definition: objects of its kind with its
   name, if it has one, in its namespace, the ManagedResource's if it names none and any if it names
   the empty one, with its labels, among its match names, if there are any, and not among its ignored ones.
   */
  lemma CacheMeansDefinition(api: Api, r: Resource, ownNamespace: string, s: ServerSelector, world: Store, history: seq<Step>, k: Key)
    requires SelectorFor(api, r, ownNamespace) == Some(s)
    requires WellFormed(world, s) && StoreOf(history) == OnServer(world, s)
    ensures k in CacheOf(r, history) <==>
      && k in world
      && (r.name == "" || k.name == r.name)
      && (api.namespaced(KindOf(r)) == Some(false) || r.namespace == Some("")
          || k.namespace == r.namespace.GetOr(ownNamespace) || (r.namespace.None? && ownNamespace == ""))
      && (r.labelSelector.None? || api.parseLabels(r.labelSelector.value).value(world[k].labels))
      && (r.matchNames == [] || k.name in r.matchNames) && k.name !in r.ignoreNames
    ensures k in CacheOf(r, history) && r.stripManagedFields != Some(false) ==> CacheOf(r, history)[k] == world[k].(managedFields := "")
    ensures k in CacheOf(r, history) && r.stripManagedFields == Some(false) ==> CacheOf(r, history)[k] == world[k]
  {
    CacheIsSelection(r, s, world, history);
    hide CacheOf, StoreOf, KindOf;
  }
}
