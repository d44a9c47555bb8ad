/**
 An informer's store under lists and watch events, and the informer whose lists and watches are
 filtered by a predicate before they reach the store.
 */
module FilteredWatch {
  import opened Wrappers

  datatype Key = Key(namespace: string, name: string)

  /** An object: its identity, and everything about it that can be modified. */
  datatype Obj = Obj(key: Key, generation: int, labels: map<string, string>, managedFields: string, content: string)

  datatype WatchEvent = Added(o: Obj) | Modified(o: Obj) | Deleted(o: Obj) | Bookmark(o: Obj) | ErrorStatus

  /** A list, which replaces the whole store, or one event of the watch that follows it. */
  datatype Step = Listed(items: seq<Obj>) | Watched(event: WatchEvent)

  type Store = map<Key, Obj>

  function Replaced(items: seq<Obj>): Store {
    if items == [] then map[] else Replaced(items[..|items| - 1])[items[|items| - 1].key := items[|items| - 1]]
  }

  function After(store: Store, step: Step): Store {
    match step
    case Listed(items) => Replaced(items)
    case Watched(Added(o)) => store[o.key := o]
    case Watched(Modified(o)) => store[o.key := o]
    case Watched(Deleted(o)) => store - {o.key}
    case Watched(_) => store
  }

  function StoreOf(history: seq<Step>): Store {
    if history == [] then map[] else After(StoreOf(history[..|history| - 1]), history[|history| - 1])
  }

  /** A sequence holds exactly the objects of a store, each once. */
  ghost predicate Enumerates(items: seq<Obj>, store: Store) {
    && (forall o :: o in items <==> o.key in store && store[o.key] == o)
    && (forall i, j :: 0 <= i < j < |items| ==> items[i].key != items[j].key)
  }

  // ---- filtering ----

  function FilterItems(items: seq<Obj>, f: Obj -> bool): seq<Obj> {
    if items == [] then [] else
    FilterItems(items[..|items| - 1], f) + if f(items[|items| - 1]) then [items[|items| - 1]] else []
  }

  /** Events that carry no object of the cluster pass; bookmarks carry one, with no name, and may be dropped. */
  function FilterStep(step: Step, f: Obj -> bool): seq<Step> {
    match step
    case Listed(items) => [Listed(FilterItems(items, f))]
    case Watched(ErrorStatus) => [step]
    case Watched(e) => if f(e.o) then [step] else []
  }

  /** What arrives at the store of a filtered informer. */
  function FilterHistory(history: seq<Step>, f: Obj -> bool): seq<Step> {
    if history == [] then [] else
    FilterHistory(history[..|history| - 1], f) + FilterStep(history[|history| - 1], f)
  }

  function FilterStore(store: Store, f: Obj -> bool): Store { map k | k in store && f(store[k]) :: store[k] }

  /** The predicate looks at nothing that can change. */
  ghost predicate KeyOnly(f: Obj -> bool) { forall a: Obj, b: Obj :: a.key == b.key ==> f(a) == f(b) }

  ghost predicate Commutes(f: Obj -> bool) {
    forall history :: StoreOf(FilterHistory(history, f)) == FilterStore(StoreOf(history), f)
  }

  lemma {:induction false} ReplacedKeys(items: seq<Obj>)
    ensures forall k :: k in Replaced(items) ==> Replaced(items)[k].key == k
  {
    if items != [] { ReplacedKeys(items[..|items| - 1]); }
  }

  lemma {:induction false} StoreKeys(history: seq<Step>)
    ensures forall k :: k in StoreOf(history) ==> StoreOf(history)[k].key == k
  {
    if history != [] {
      StoreKeys(history[..|history| - 1]);
      if history[|history| - 1].Listed? { ReplacedKeys(history[|history| - 1].items); }
    }
  }

  lemma {:induction false} ListCommutes(items: seq<Obj>, f: Obj -> bool)
    requires KeyOnly(f)
    ensures Replaced(FilterItems(items, f)) == FilterStore(Replaced(items), f)
  {
    if items != [] {
      var rest, o := items[..|items| - 1], items[|items| - 1];
      ListCommutes(rest, f);
      ReplacedKeys(rest);
      var kept := FilterItems(rest, f);
      if f(o) { assert (kept + [o])[..|kept|] == kept; }
      else { assert kept + [] == kept; }
    }
  }

  lemma StepCommutes(store: Store, step: Step, f: Obj -> bool)
    requires KeyOnly(f) && forall k :: k in store ==> store[k].key == k
    ensures var kept := FilterStep(step, f);
            FilterStore(After(store, step), f) == if kept == [] then FilterStore(store, f) else After(FilterStore(store, f), kept[0])
  {
    if step.Listed? { ListCommutes(step.items, f); }
  }

  lemma {:induction false} KeyOnlyCommutes(history: seq<Step>, f: Obj -> bool)
    requires KeyOnly(f)
    ensures StoreOf(FilterHistory(history, f)) == FilterStore(StoreOf(history), f)
  {
    if history != [] {
      var rest, step := history[..|history| - 1], history[|history| - 1];
      KeyOnlyCommutes(rest, f);
      StoreKeys(rest);
      StepCommutes(StoreOf(rest), step, f);
      var before, kept := FilterHistory(rest, f), FilterStep(step, f);
      hide After, FilterStep, FilterStore, KeyOnly;
      if kept == [] {
        assert before + kept == before;
      } else {
        assert |kept| == 1 by { OneStep(step, f); }
        assert (before + kept)[..|before|] == before && (before + kept)[|before|] == kept[0];
      }
    }
  }

  lemma OneStep(step: Step, f: Obj -> bool)
    ensures |FilterStep(step, f)| <= 1
  {
  }

  /** An object that stops passing the filter is not removed: its last passing version stays. */
  lemma ChangingObjectStays(f: Obj -> bool, a: Obj, b: Obj)
    requires a.key == b.key && f(a) && !f(b)
    ensures var history := [Watched(Added(a)), Watched(Modified(b))];
            && StoreOf(FilterHistory(history, f)) == map[a.key := a]
            && FilterStore(StoreOf(history), f) == map[]
  {
    var history := [Watched(Added(a)), Watched(Modified(b))];
    assert history[..1] == [Watched(Added(a))] && history[..1][..0] == [];
    assert StoreOf(history[..1]) == map[a.key := a];
    assert FilterHistory(history[..1], f) == [Watched(Added(a))];
    assert FilterHistory(history, f) == [Watched(Added(a))];
  }

  /** Filtering the stream is filtering the store, for every history, exactly for predicates on the key. */
  lemma CommutesIffKeyOnly(f: Obj -> bool)
    ensures Commutes(f) <==> KeyOnly(f)
  {
    if KeyOnly(f) {
      forall history: seq<Step>
        ensures StoreOf(FilterHistory(history, f)) == FilterStore(StoreOf(history), f)
      {
        KeyOnlyCommutes(history, f);
      }
    } else {
      var a: Obj, b: Obj :| a.key == b.key && f(a) && !f(b);
      ChangingObjectStays(f, a, b);
      var history := [Watched(Added(a)), Watched(Modified(b))];
      assert a.key in StoreOf(FilterHistory(history, f));
    }
  }

  // ---- the filter that is used ----

  /** The filter of a resource definition; without names to match, all match. */
  function NameFilter(matchNames: seq<string>, ignoreNames: seq<string>): Obj -> bool {
    (o: Obj) => (matchNames == [] || o.key.name in matchNames) && o.key.name !in ignoreNames
  }

  lemma NameFilterCommutes(matchNames: seq<string>, ignoreNames: seq<string>)
    ensures Commutes(NameFilter(matchNames, ignoreNames))
  {
    CommutesIffKeyOnly(NameFilter(matchNames, ignoreNames));
  }

  // ---- what handlers are told ----

  datatype Notification = OnAdd(o: Obj) | OnUpdate(before: Obj, o: Obj) | OnDelete(before: Obj)

  function At(store: Store, key: Key): Option<Obj> { if key in store then Some(store[key]) else None }

  function Difference(before: Option<Obj>, after: Option<Obj>): seq<Notification> {
    match (before, after)
    case (None, None) => []
    case (None, Some(o)) => [OnAdd(o)]
    case (Some(o), Some(p)) => [OnUpdate(o, p)]
    case (Some(o), None) => [OnDelete(o)]
  }

  /** A step tells handlers about an object if it is a list or an event of that object. */
  predicate Concerns(step: Step, key: Key) {
    match step
    case Listed(_) => true
    case Watched(ErrorStatus) => false
    case Watched(Bookmark(_)) => false
    case Watched(e) => e.o.key == key
  }

  /** What one step tells handlers about an object. */
  function Told(store: Store, step: Step, key: Key): seq<Notification> {
    if Concerns(step, key) then Difference(At(store, key), At(After(store, step), key)) else []
  }

  function Notifications(history: seq<Step>, key: Key): seq<Notification> {
    if history == [] then []
    else
      var rest, step := history[..|history| - 1], history[|history| - 1];
      Notifications(rest, key) + Told(StoreOf(rest), step, key)
  }

  /** The objects a filter keeps, told by key. */
  ghost predicate Keeps(f: Obj -> bool, key: Key) { forall o: Obj :: o.key == key ==> f(o) }

  lemma KeepsOrDrops(f: Obj -> bool, key: Key, o: Obj)
    requires KeyOnly(f) && o.key == key
    ensures Keeps(f, key) <==> f(o)
  {
  }

  lemma FilteredAt(store: Store, f: Obj -> bool, key: Key)
    requires KeyOnly(f) && forall k :: k in store ==> store[k].key == k
    ensures At(FilterStore(store, f), key) == if Keeps(f, key) then At(store, key) else None
  {
    if key in store { KeepsOrDrops(f, key, store[key]); }
  }

  lemma ToldIsKept(store: Store, step: Step, f: Obj -> bool, key: Key)
    requires KeyOnly(f) && (forall k :: k in store ==> store[k].key == k)
    requires forall k :: k in After(store, step) ==> After(store, step)[k].key == k
    ensures var kept := FilterStep(step, f);
            (if kept == [] then [] else Told(FilterStore(store, f), kept[0], key)) == if Keeps(f, key) then Told(store, step, key) else []
  {
    StepCommutes(store, step, f);
    FilteredAt(store, f, key);
    FilteredAt(After(store, step), f, key);
    if Concerns(step, key) && step.Watched? { KeepsOrDrops(f, key, step.event.o); }
    hide After, FilterStore, KeyOnly, Keeps, At, FilterItems;
  }

  /** Handlers of a filtered informer hear of the kept objects everything they would hear without the filter, and of others nothing. */
  lemma {:induction false} NotificationsAreKept(history: seq<Step>, f: Obj -> bool, key: Key)
    requires KeyOnly(f)
    ensures Notifications(FilterHistory(history, f), key) == if Keeps(f, key) then Notifications(history, key) else []
  {
    if history != [] {
      var rest, step := history[..|history| - 1], history[|history| - 1];
      NotificationsAreKept(rest, f, key);
      KeyOnlyCommutes(rest, f);
      StoreKeys(rest);
      StoreKeys(history);
      assert StoreOf(history) == After(StoreOf(rest), step);
      ToldIsKept(StoreOf(rest), step, f, key);
      OneStep(step, f);
      hide Told, After, FilterStep, FilterStore, KeyOnly, Keeps, StoreOf;
      var before, kept := FilterHistory(rest, f), FilterStep(step, f);
      if kept == [] {
        assert before + kept == before;
      } else {
        assert (before + kept)[..|before|] == before && (before + kept)[|before|] == kept[0];
      }
    }
  }
}
