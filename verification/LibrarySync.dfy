/**
 Triggers that watch JsonnetLibraries. Imports read libraries from the controller's own cache, which may
 lag behind the trigger's. The check before a rendering compares generations; this module says what that
 check buys for the imports that follow it, while both caches go on changing.
 */
module LibrarySync {
  import opened Wrappers
  import opened Fingerprint
  import opened FilteredWatch
  import opened InstanceGate
  import opened TriggerConsistency
  import Importer

  /** A library as the controller's cache holds it. */
  datatype Library = Library(generation: int, data: map<string, string>)

  /** The controller's own cache of libraries over time. */
  type View = nat -> map<Key, Library>

  /** As long as a library is not deleted and created again, its generation does not fall. */
  ghost predicate OnlyForward(view: View, key: Key) {
    forall s, t :: s <= t && key in view(s) && key in view(t) ==> view(s)[key].generation <= view(t)[key].generation
  }

  ghost predicate GenerationsGrow(history: seq<Step>, key: Key) {
    forall p, q :: 0 <= p <= q < |history| ==> Newer(history, p, q, key)
  }

  /** Of two steps that leave the object, the later one leaves it at no smaller generation. */
  predicate Newer(history: seq<Step>, p: nat, q: nat, key: Key)
    requires p <= q < |history|
  {
    Concerns(history[p], key) && Concerns(history[q], key) && Leaves(history[p], key).Some? && Leaves(history[q], key).Some? ==>
      Leaves(history[p], key).value.generation <= Leaves(history[q], key).value.generation
  }

  /** An import at moment t is answered from the controller's cache as it is then. */
  ghost predicate Sees(cluster: Importer.Cluster, libraries: map<Key, Library>) {
    forall namespace, name ::
      cluster(namespace, name) == if Key(namespace, name) in libraries then Some(libraries[Key(namespace, name)].data) else None
  }

  /** The imports of a rendering, each at its moment, none before the check. */
  ghost predicate ImportsFrom(events: seq<Importer.Event>, view: View, when: nat -> nat, check: nat) {
    forall i: nat :: i < |events| ==> check <= when(i) && Sees(events[i].cluster, view(when(i)))
  }

  /** The library an import of this path reads. */
  predicate Reads(ns: Importer.Namespaces, path: string, key: Key) {
    var place := Importer.PlaceOf(path);
    !place.Nowhere? && key == Key(if place.Local? then ns.local else ns.library, place.name)
  }

  /** A rendering for a library trigger, the histories and moments it saw, and its imports. */
  ghost predicate LibraryRendering(
    ci: InstanceCache, spec: Spec, req: Request, reader: Reader, history: seq<Step>, at: nat -> nat, view: View, check: nat)
  {
    && WatchesLibrary(req.watched) && Render(ci, spec, req, reader).Rendered? && req.trigger in ci.triggerCaches
    && Live(reader, ci.triggerCaches[req.trigger], history, at)
    && reader.library(KeyOf(req.watched)) ==
       (if KeyOf(req.watched) in view(check) then Some(view(check)[KeyOf(req.watched)].generation) else None)
  }

  /** The check read one library twice: from the trigger's cache, and at the same generation from the controller's. */
  lemma Checked(
    ci: InstanceCache, spec: Spec, req: Request, reader: Reader, history: seq<Step>, at: nat -> nat, view: View, check: nat)
    returns (o: Obj)
    requires LibraryRendering(ci, spec, req, reader, history, at, view, check)
    ensures At(StoreOf(history[..at(SYNC_CHECK)]), KeyOf(req.watched)) == Some(o)
    ensures KeyOf(req.watched) in view(check) && view(check)[KeyOf(req.watched)].generation == o.generation
  {
    hide Render, StoreOf, TriggerData, KindOf;
    var key, dc := KeyOf(req.watched), ci.triggerCaches[req.trigger];
    assert NeedsSync(req, ci, reader) == Ok(false);
    o := reader.get(SYNC_CHECK, dc, key).o;
  }

  /** Later states of an object are at no smaller generation than an event that left it. */
  lemma GenerationSince(history: seq<Step>, m: nat, n: nat, key: Key, o: Obj)
    requires m < n <= |history| && Concerns(history[m], key) && GenerationsGrow(history, key)
    requires At(StoreOf(history[..n]), key) == Some(o)
    ensures Leaves(history[m], key).Some? ==> Leaves(history[m], key).value.generation <= o.generation
  {
    hide StoreOf, Concerns, Leaves;
    StateAfter(history, m, n, key);
    var last := LastConcern(history, m, n, key);
    assert Newer(history, m, last.value, key);
  }

  lemma GenerationsOfStates(history: seq<Step>, a: nat, b: nat, key: Key, o: Obj, x: Obj)
    requires a <= b <= |history| && GenerationsGrow(history, key)
    requires At(StoreOf(history[..a]), key) == Some(o) && At(StoreOf(history[..b]), key) == Some(x)
    ensures o.generation <= x.generation
  {
    StateAfter(history, 0, a, key);
    assert history[..0] == [];
    var first := LastConcern(history, 0, a, key).value;
    hide StoreOf, Leaves, Concerns, GenerationsGrow;
    GenerationSince(history, first, b, key, x);
  }

  /**
   The promise for JsonnetLibrary triggers: every import of the watched library that a rendering
   resolves, whenever it does so, has the contents of a version of the library no older than the one in
   the triggering event, even though it is read from another cache than the trigger.
   */
  lemma ImportsAreInSync(
    ci: InstanceCache, spec: Spec, req: Request, reader: Reader, history: seq<Step>, at: nat -> nat, view: View, check: nat, m: nat,
    ns: Importer.Namespaces, events: seq<Importer.Event>, when: nat -> nat, i: nat) returns (t: nat)
    requires LibraryRendering(ci, spec, req, reader, history, at, view, check)
    requires GenerationsGrow(history, KeyOf(req.watched)) && OnlyForward(view, KeyOf(req.watched))
    requires m < at(SYNC_CHECK) && Concerns(history[m], KeyOf(req.watched))
    requires ImportsFrom(events, view, when, check) && i < |events| && events[i].request.importPath != Importer.EMBEDDED
    requires Reads(ns, Importer.Absolute(events[i].request), KeyOf(req.watched)) && Importer.AnswerTo(ns, events, i).Ok?
    ensures check <= t && KeyOf(req.watched) in view(t)
    ensures var library, place := view(t)[KeyOf(req.watched)], Importer.PlaceOf(Importer.Absolute(events[i].request));
            && place.key in library.data
            && Importer.AnswerTo(ns, events, i).value.contents == Importer.Contents.Library(library.data[place.key])
            && library.generation >= view(check)[KeyOf(req.watched)].generation
            && (Leaves(history[m], KeyOf(req.watched)).Some? ==>
                  library.generation >= Leaves(history[m], KeyOf(req.watched)).value.generation)
  {
    var o := Checked(ci, spec, req, reader, history, at, view, check);
    var k := Importer.AnswersAreFirstLookups(ns, events, i);
    assert at(SYNC_CHECK) <= |history|;
    hide LibraryRendering, StoreOf, Importer.AnswerTo, Importer.Absolute, Importer.PlaceOf, Leaves, Concerns, GenerationsGrow;
    GenerationSince(history, m, at(SYNC_CHECK), KeyOf(req.watched), o);
    t := when(k);
    assert Sees(events[k].cluster, view(t));
  }

  /**
   What such a rendering is given as trigger data: nothing, if the library has gone since the check, or
   a version no older than the checked one. It is the checked one if and only if the last step in between that
   concerns the library, if there is any, left it that way; otherwise the imports may be behind the data.
   */
  lemma TriggerDataAfterCheck(
    ci: InstanceCache, spec: Spec, req: Request, reader: Reader, history: seq<Step>, at: nat -> nat, view: View, check: nat)
    returns (o: Obj, data: Option<Obj>)
    requires LibraryRendering(ci, spec, req, reader, history, at, view, check) && GenerationsGrow(history, KeyOf(req.watched))
    ensures KeyOf(req.watched) in view(check) && o.generation == view(check)[KeyOf(req.watched)].generation
    ensures Render(ci, spec, req, reader).trigger == Some(data)
    ensures data.Some? ==> data.value.generation >= o.generation
    ensures at(SYNC_CHECK) <= at(TRIGGER_DATA) <= |history|
    ensures var last := LastConcern(history, at(SYNC_CHECK), at(TRIGGER_DATA), KeyOf(req.watched));
            data == Some(o) <==> last.None? || Leaves(history[last.value], KeyOf(req.watched)) == Some(o)
  {
    var key := KeyOf(req.watched);
    o := Checked(ci, spec, req, reader, history, at, view, check);
    data := Render(ci, spec, req, reader).trigger.value;
    assert data == At(StoreOf(history[..at(TRIGGER_DATA)]), key) by {
      hide Render, StoreOf;
      assert TriggerData(req, ci, reader) == Ok(Some(data));
    }
    hide LibraryRendering, Render, StoreOf, Leaves, Concerns, GenerationsGrow;
    StateAfter(history, at(SYNC_CHECK), at(TRIGGER_DATA), key);
    if data.Some? { GenerationsOfStates(history, at(SYNC_CHECK), at(TRIGGER_DATA), key, o, data.value); }
  }
}
