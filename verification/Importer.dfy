/**
 Jsonnet imports: how an import path becomes an absolute one, where it is looked up, how the importer
 caches answers, and how a recorded run is replayed without a cluster.
 */
module Importer {
  import opened Wrappers
  import opened Text

  const EMBEDDED := "espejote.libsonnet"

  /** The text of the embedded library is not needed, only that it is that text. */
  datatype Contents = BuiltIn | Library(text: string)

  datatype Problem = InvalidPath | NoLocalNamespace | Unavailable | KeyMissing | NotRecorded

  datatype Source = Source(contents: Contents, foundAt: string)

  type Answer = Result<Source, Problem>

  datatype Namespaces = Namespaces(local: string, library: string)

  /** The JsonnetLibraries of a cluster at one moment, by namespace and name. */
  type Cluster = (string, string) -> Option<map<string, string>>

  // ---- paths ----

  function MakeAbsoluteImportPath(importedFrom: string, importPath: string): string {
    var path := TrimPrefix(importPath, "./");
    if Count(path, '/') == 0 then BeforeLast(importedFrom, '/') + "/" + path
    else if Count(path, '/') == 1 && HasPrefix(importedFrom, "lib/") then "lib/" + path
    else path
  }

  /** Where a path points: a key of a local library, of a shared one, or nowhere. */
  datatype Place = Local(name: string, key: string) | Shared(name: string, key: string) | Nowhere

  function PlaceOf(full: string): Place {
    var segments := Split(full, '/');
    if |segments| == 2 then Local(segments[0], segments[1])
    else if |segments| == 3 && segments[0] == "lib" then Shared(segments[1], segments[2])
    else Nowhere
  }

  function LoadFromCluster(ns: Namespaces, cluster: Cluster, full: string): Answer {
    match PlaceOf(full)
    case Nowhere => Err(InvalidPath)
    case Local(name, key) => if ns.local == "" then Err(NoLocalNamespace) else Lookup(cluster(ns.local, name), key, full)
    case Shared(name, key) => Lookup(cluster(ns.library, name), key, full)
  }

  function Lookup(manifest: Option<map<string, string>>, key: string, full: string): Answer {
    if manifest.None? then Err(Unavailable)
    else if key in manifest.value then Ok(Source(Library(manifest.value[key]), full))
    else Err(KeyMissing)
  }

  /**
   What a relative path means inside the library at a place, said without strings: one segment is a
   sibling, two segments a library of the same kind, three a shared one if they start with lib.
   A local library that is itself named lib counts as shared for two segments.
   */
  function Resolve(from: Place, importPath: string): Place
    requires !from.Nowhere?
  {
    var parts := Split(TrimPrefix(importPath, "./"), '/');
    if |parts| == 1 then from.(key := parts[0])
    else if |parts| == 2 then
      if from.Shared? || from.name == "lib" then Shared(parts[0], parts[1]) else Local(parts[0], parts[1])
    else if |parts| == 3 && parts[0] == "lib" then Shared(parts[1], parts[2])
    else Nowhere
  }

  lemma PrefixIsFirstPart(s: string)
    ensures HasPrefix(s, "lib/") <==> |Split(s, '/')| >= 2 && Split(s, '/')[0] == "lib"
  {
    FirstPart(s, '/');
    SplitLength(s, '/');
    CountZero(s, '/');
    if HasPrefix(s, "lib/") {
      assert s == "lib" + ['/'] + s[4..];
      SplitAt("lib", s[4..], '/');
      SplitWithout("lib", '/');
    }
    if Before(s, '/') == "lib" && '/' in s {
      assert s[..3] == "lib" && s[3] == '/';
      assert s == "lib/" + s[4..];
    }
  }

  /** The string operations on paths compute exactly the places. */
  lemma PathsResolve(importedFrom: string, importPath: string)
    requires !PlaceOf(importedFrom).Nowhere?
    ensures PlaceOf(MakeAbsoluteImportPath(importedFrom, importPath)) == Resolve(PlaceOf(importedFrom), importPath)
  {
    var path := TrimPrefix(importPath, "./");
    SplitLength(path, '/');
    SplitLength(importedFrom, '/');
    CountZero(importedFrom, '/');
    PrefixIsFirstPart(importedFrom);
    if Count(path, '/') == 0 {
      OnePart(path, '/');
      BeforeLastSplit(importedFrom, '/');
      SplitAt(BeforeLast(importedFrom, '/'), path, '/');
      assert BeforeLast(importedFrom, '/') + "/" + path == BeforeLast(importedFrom, '/') + ['/'] + path;
    } else if Count(path, '/') == 1 && HasPrefix(importedFrom, "lib/") {
      assert "lib/" + path == "lib" + ['/'] + path;
      SplitAt("lib", path, '/');
      SplitWithout("lib", '/');
    }
  }

  /**
   What a path means in a snippet that is no file of a library: the template, whose name has no slash.
   One segment names a key of a library without a name, two a local library, three a shared one if they start with lib.
   */
  function ResolveTop(importPath: string): Place {
    var parts := Split(TrimPrefix(importPath, "./"), '/');
    if |parts| == 1 then Local("", parts[0])
    else if |parts| == 2 then Local(parts[0], parts[1])
    else if |parts| == 3 && parts[0] == "lib" then Shared(parts[1], parts[2])
    else Nowhere
  }

  lemma {:induction false} NothingBeforeLast(s: string, c: char)
    requires c !in s
    ensures BeforeLast(s, c) == []
  {
    if s != [] { NothingBeforeLast(s[..|s| - 1], c); }
  }

  lemma LibPrefixHasSlash(s: string)
    ensures HasPrefix(s, "lib/") ==> '/' in s
  {
    if HasPrefix(s, "lib/") { assert s[3] == '/'; }
  }

  /** The string operations compute the template's places as well. */
  lemma TopPathsResolve(importedFrom: string, importPath: string)
    requires '/' !in importedFrom
    ensures PlaceOf(MakeAbsoluteImportPath(importedFrom, importPath)) == ResolveTop(importPath)
  {
    var path := TrimPrefix(importPath, "./");
    SplitLength(path, '/');
    NothingBeforeLast(importedFrom, '/');
    LibPrefixHasSlash(importedFrom);
    if Count(path, '/') == 0 {
      OnePart(path, '/');
      SplitAt([], path, '/');
      assert [] + "/" + path == [] + ['/'] + path;
    }
  }

  /** A leading dot and slash changes nothing about where a path leads. */
  lemma DotSlashIsNothing(importedFrom: string, importPath: string)
    requires !HasPrefix(importPath, "./")
    ensures MakeAbsoluteImportPath(importedFrom, "./" + importPath) == MakeAbsoluteImportPath(importedFrom, importPath)
  {
    TrimsOne(importPath, "./");
    hide TrimPrefix;
  }

  /**
   A name behind a dot and a slash is that of a sibling, whatever the name, and so also that of the
   built-in library: only the bare name stands for that one.
   */
  lemma DotSlashNamesSiblings(importedFrom: string, name: string)
    requires !PlaceOf(importedFrom).Nowhere? && '/' !in name
    ensures "./" + name != name
    ensures PlaceOf(MakeAbsoluteImportPath(importedFrom, "./" + name)) == PlaceOf(importedFrom).(key := name)
  {
    assert |"./" + name| == |name| + 2;
    TrimsOne(name, "./");
    SplitWithout(name, '/');
    PathsResolve(importedFrom, "./" + name);
    hide PlaceOf, MakeAbsoluteImportPath, TrimPrefix, Split;
  }

  // ---- containment ----

  predicate OneSegment(importPath: string) { |Split(TrimPrefix(importPath, "./"), '/')| == 1 }

  predicate TwoSegments(importPath: string) { |Split(TrimPrefix(importPath, "./"), '/')| == 2 }

  /** What is imported from a shared library is found in the library namespace or not at all. */
  lemma SharedStaysShared(ns: Namespaces, cluster: Cluster, importedFrom: string, importPath: string)
    requires PlaceOf(importedFrom).Shared?
    ensures var r := LoadFromCluster(ns, cluster, MakeAbsoluteImportPath(importedFrom, importPath));
            r.Ok? ==> PlaceOf(r.value.foundAt).Shared?
  {
    PathsResolve(importedFrom, importPath);
  }

  /** One file's import of a path is found at another file. */
  predicate Links(ns: Namespaces, cluster: Cluster, importedFrom: string, importPath: string, foundAt: string) {
    && importPath != EMBEDDED
    && var r := LoadFromCluster(ns, cluster, MakeAbsoluteImportPath(importedFrom, importPath));
       r.Ok? && r.value.foundAt == foundAt
  }

  /** A file and what it imports, step by step; the embedded library ends a chain. */
  ghost predicate Chain(ns: Namespaces, cluster: Cluster, files: seq<string>, paths: seq<string>) {
    |files| == |paths| + 1 && forall i :: 0 <= i < |paths| ==> Links(ns, cluster, files[i], paths[i], files[i + 1])
  }

  /**
   Where a chain of paths leads that starts in the template: place by place, with no regard to what
   any cluster holds.
   */
  function Destination(paths: seq<string>): Place
    requires |paths| > 0
  {
    var n := |paths| - 1;
    if n == 0 then ResolveTop(paths[0])
    else
      var from := Destination(paths[..n]);
      if from.Nowhere? then Nowhere else Resolve(from, paths[n])
  }

  /** A link leads to a place, so what it finds can import relative to itself. */
  lemma FoundAtAPlace(ns: Namespaces, cluster: Cluster, importedFrom: string, importPath: string, foundAt: string)
    requires Links(ns, cluster, importedFrom, importPath, foundAt)
    ensures foundAt == MakeAbsoluteImportPath(importedFrom, importPath) && !PlaceOf(foundAt).Nowhere?
  {
  }

  /** Every file of a chain from the template is where its paths lead. */
  lemma {:induction false} ChainsLeadToDestinations(ns: Namespaces, cluster: Cluster, files: seq<string>, paths: seq<string>, j: nat)
    requires Chain(ns, cluster, files, paths) && '/' !in files[0] && 0 < j < |files|
    ensures PlaceOf(files[j]) == Destination(paths[..j]) && !PlaceOf(files[j]).Nowhere?
    decreases j
  {
    hide PlaceOf, MakeAbsoluteImportPath, Links, Resolve, ResolveTop;
    assert Links(ns, cluster, files[j - 1], paths[j - 1], files[j]);
    FoundAtAPlace(ns, cluster, files[j - 1], paths[j - 1], files[j]);
    if j == 1 {
      TopPathsResolve(files[0], paths[0]);
    } else {
      ChainsLeadToDestinations(ns, cluster, files, paths, j - 1);
      PathsResolve(files[j - 1], paths[j - 1]);
      assert paths[..j][..j - 1] == paths[..j - 1];
    }
  }

  /** The library at a place, if the cluster has it and it may be read. */
  function LibraryAt(ns: Namespaces, cluster: Cluster, place: Place): Option<map<string, string>> {
    if place.Nowhere? || (place.Local? && ns.local == "") then None
    else cluster(if place.Local? then ns.local else ns.library, place.name)
  }

  /** What an answer has to do with the place it was looked up at: the text there, or why there is none. */
  predicate AnswersFor(ns: Namespaces, cluster: Cluster, place: Place, full: string, r: Answer) {
    match r
    case Ok(found) =>
      && !place.Nowhere? && LibraryAt(ns, cluster, place).Some? && place.key in LibraryAt(ns, cluster, place).value
      && found == Source(Library(LibraryAt(ns, cluster, place).value[place.key]), full)
    case Err(InvalidPath) => place.Nowhere?
    case Err(NoLocalNamespace) => place.Local? && ns.local == ""
    case Err(Unavailable) => !place.Nowhere? && !(place.Local? && ns.local == "") && LibraryAt(ns, cluster, place).None?
    case Err(KeyMissing) => !place.Nowhere? && LibraryAt(ns, cluster, place).Some? && place.key !in LibraryAt(ns, cluster, place).value
    case _ => false
  }

  lemma LoadAnswersForPlace(ns: Namespaces, cluster: Cluster, full: string)
    ensures AnswersFor(ns, cluster, PlaceOf(full), full, LoadFromCluster(ns, cluster, full))
  {
    hide PlaceOf;
  }

  lemma NextPlace(ns: Namespaces, cluster: Cluster, files: seq<string>, paths: seq<string>, importPath: string)
    requires Chain(ns, cluster, files, paths) && '/' !in files[0]
    ensures PlaceOf(MakeAbsoluteImportPath(files[|paths|], importPath)) == Destination(paths + [importPath])
  {
    var n := |paths|;
    assert (paths + [importPath])[..n] == paths && paths[..n] == paths;
    if n == 0 {
      TopPathsResolve(files[0], importPath);
    } else {
      ChainsLeadToDestinations(ns, cluster, files, paths, n);
      PathsResolve(files[n], importPath);
    }
    hide PlaceOf, MakeAbsoluteImportPath, Resolve, ResolveTop, Chain;
  }

  /**
   What the next import of such a chain gives, the first one from the template included: the text held at
   the place its paths lead to, found under the absolute path, or else the reason why there is none.
   */
  lemma NextImportIsDestination(ns: Namespaces, cluster: Cluster, files: seq<string>, paths: seq<string>, importPath: string)
    requires Chain(ns, cluster, files, paths) && '/' !in files[0]
    ensures var full := MakeAbsoluteImportPath(files[|paths|], importPath);
            AnswersFor(ns, cluster, Destination(paths + [importPath]), full, LoadFromCluster(ns, cluster, full))
  {
    NextPlace(ns, cluster, files, paths, importPath);
    LoadAnswersForPlace(ns, cluster, MakeAbsoluteImportPath(files[|paths|], importPath));
    hide PlaceOf, MakeAbsoluteImportPath, Destination, AnswersFor, LoadFromCluster;
  }

  /** Along chains of any length: once in a shared library, always in a shared library. */
  lemma {:induction false} ChainsStayShared(ns: Namespaces, cluster: Cluster, files: seq<string>, paths: seq<string>, i: nat, j: nat)
    requires Chain(ns, cluster, files, paths) && i <= j < |files| && PlaceOf(files[i]).Shared?
    ensures PlaceOf(files[j]).Shared?
    decreases j
  {
    if i < j {
      ChainsStayShared(ns, cluster, files, paths, i, j - 1);
      assert Links(ns, cluster, files[j - 1], paths[j - 1], files[j]);
      SharedStaysShared(ns, cluster, files[j - 1], paths[j - 1]);
    }
  }

  /**
   From a local library a one-segment path stays in that library; a two-segment path stays local if
   and only if that library is not named lib.
   */
  lemma LocalStaysLocal(importedFrom: string, importPath: string)
    requires PlaceOf(importedFrom).Local?
    ensures var to, from := PlaceOf(MakeAbsoluteImportPath(importedFrom, importPath)), PlaceOf(importedFrom);
            && (OneSegment(importPath) ==> to.Local? && to.name == from.name)
            && (TwoSegments(importPath) ==> (to.Local? <==> from.name != "lib") && (to.Shared? <==> from.name == "lib"))
            && (to.Nowhere? ==> !OneSegment(importPath) && !TwoSegments(importPath))
  {
    PathsResolve(importedFrom, importPath);
  }

  /** Such a chain of one- and two-segment imports stays local for as long as it avoids a library named lib. */
  lemma {:induction false} ChainsStayLocal(ns: Namespaces, cluster: Cluster, files: seq<string>, paths: seq<string>, j: nat)
    requires Chain(ns, cluster, files, paths) && j < |files| && PlaceOf(files[0]).Local?
    requires forall i :: 0 <= i < j ==> OneSegment(paths[i]) || TwoSegments(paths[i])
    requires forall i :: 0 <= i < j ==> !PlaceOf(files[i]).Nowhere? && PlaceOf(files[i]).name != "lib"
    ensures PlaceOf(files[j]).Local?
  {
    if j > 0 {
      ChainsStayLocal(ns, cluster, files, paths, j - 1);
      assert Links(ns, cluster, files[j - 1], paths[j - 1], files[j]);
      LocalStaysLocal(files[j - 1], paths[j - 1]);
    }
  }

  lemma ChainTail(ns: Namespaces, cluster: Cluster, files: seq<string>, paths: seq<string>)
    requires Chain(ns, cluster, files, paths) && |paths| > 0
    ensures Chain(ns, cluster, files[1..], paths[1..])
  {
    hide Links;
    forall i | 0 <= i < |paths[1..]|
      ensures Links(ns, cluster, files[1..][i], paths[1..][i], files[1..][i + 1])
    {
      assert Links(ns, cluster, files[i + 1], paths[i + 1], files[(i + 1) + 1]);
    }
  }

  /**
   From the template, too, one- and two-segment imports lead to local libraries only, as long as none of
   them is named lib: shared libraries are reached by naming lib and by nothing else.
   */
  lemma TemplateChainsStayLocal(ns: Namespaces, cluster: Cluster, files: seq<string>, paths: seq<string>, j: nat)
    requires Chain(ns, cluster, files, paths) && '/' !in files[0] && 0 < j < |files|
    requires forall i :: 0 <= i < j ==> OneSegment(paths[i]) || TwoSegments(paths[i])
    requires forall i :: 0 < i < j ==> !PlaceOf(files[i]).Nowhere? && PlaceOf(files[i]).name != "lib"
    ensures PlaceOf(files[j]).Local?
  {
    ChainsLeadToDestinations(ns, cluster, files, paths, 1);
    assert paths[..1][0] == paths[0] && PlaceOf(files[1]) == ResolveTop(paths[0]);
    ChainTail(ns, cluster, files, paths);
    hide Chain, PlaceOf, ResolveTop;
    ChainsStayLocal(ns, cluster, files[1..], paths[1..], j - 1);
  }

  /** Without a local namespace nothing local is ever found, whatever the importing file. */
  lemma OnlySharedWithoutLocalNamespace(ns: Namespaces, cluster: Cluster, importedFrom: string, importPath: string)
    requires ns.local == ""
    ensures var r := LoadFromCluster(ns, cluster, MakeAbsoluteImportPath(importedFrom, importPath));
            r.Ok? ==> PlaceOf(r.value.foundAt).Shared?
  {
  }

  /** Two clusters hold the same libraries in a namespace. */
  ghost predicate SameIn(namespace: string, a: Cluster, b: Cluster) { forall name :: a(namespace, name) == b(namespace, name) }

  /** What a shared library's import gives, failures included, depends on the library namespace alone. */
  lemma SharedImportsIgnoreTheRest(ns: Namespaces, ns': Namespaces, a: Cluster, b: Cluster, importedFrom: string, importPath: string)
    requires PlaceOf(importedFrom).Shared? && ns.library == ns'.library && SameIn(ns.library, a, b)
    ensures var full := MakeAbsoluteImportPath(importedFrom, importPath);
            LoadFromCluster(ns, a, full) == LoadFromCluster(ns', b, full)
  {
    PathsResolve(importedFrom, importPath);
  }

  /** What one- and two-segment imports of a local library not named lib give depends on the local namespace alone. */
  lemma LocalImportsIgnoreTheRest(ns: Namespaces, ns': Namespaces, a: Cluster, b: Cluster, importedFrom: string, importPath: string)
    requires PlaceOf(importedFrom).Local? && (OneSegment(importPath) || (TwoSegments(importPath) && PlaceOf(importedFrom).name != "lib"))
    requires ns.local == ns'.local && SameIn(ns.local, a, b)
    ensures var full := MakeAbsoluteImportPath(importedFrom, importPath);
            LoadFromCluster(ns, a, full) == LoadFromCluster(ns', b, full)
  {
    PathsResolve(importedFrom, importPath);
  }

  /**
   Below a shared library a whole chain of imports is found in the same way in every cluster with the same
   library namespace, whichever namespace is the local one and whatever it holds.
   */
  lemma SharedChainsIgnoreTheRest(
    ns: Namespaces, ns': Namespaces, a: Cluster, b: Cluster, files: seq<string>, paths: seq<string>, i: nat)
    requires Chain(ns, a, files, paths) && i < |files| && PlaceOf(files[i]).Shared?
    requires ns.library == ns'.library && SameIn(ns.library, a, b)
    ensures Chain(ns', b, files[i..], paths[i..])
  {
    forall k | 0 <= k < |paths| - i
      ensures Links(ns', b, files[i..][k], paths[i..][k], files[i..][k + 1])
    {
      ChainsStayShared(ns, a, files, paths, i, i + k);
      assert Links(ns, a, files[i + k], paths[i + k], files[i + k + 1]);
      SharedImportsIgnoreTheRest(ns, ns', a, b, files[i + k], paths[i + k]);
    }
  }

  /** The path the embedded library itself imports. It is never found. */
  const EMBEDDED_IMPORT := "github.com" + ['/'] + ("jsonnet-libs" + ['/'] + ("docsonnet" + ['/'] + "doc-util/main.libsonnet"))

  lemma EmbeddedImportsNothing(ns: Namespaces, cluster: Cluster)
    ensures LoadFromCluster(ns, cluster, MakeAbsoluteImportPath(EMBEDDED, EMBEDDED_IMPORT)) == Err(InvalidPath)
  {
    hide Split, Count, BeforeLast, Lookup;
    var s := EMBEDDED_IMPORT;
    SplitAt("github.com", "jsonnet-libs" + ['/'] + ("docsonnet" + ['/'] + "doc-util/main.libsonnet"), '/');
    SplitAt("jsonnet-libs", "docsonnet" + ['/'] + "doc-util/main.libsonnet", '/');
    SplitAt("docsonnet", "doc-util/main.libsonnet", '/');
    SplitLength(s, '/');
    assert s[0] == 'g';
  }

  // ---- the importer ----

  datatype Request = Request(importedFrom: string, importPath: string)

  function Absolute(r: Request): string { MakeAbsoluteImportPath(r.importedFrom, r.importPath) }

  type Cache = map<string, Answer>

  /** What an import answers and leaves in the cache, with the cluster as it is at that moment. */
  function Imported(ns: Namespaces, cache: Cache, cluster: Cluster, r: Request): (Cache, Answer) {
    if r.importPath == EMBEDDED then (cache, Ok(Source(BuiltIn, EMBEDDED)))
    else if Absolute(r) in cache then (cache, cache[Absolute(r)])
    else
      var answer := LoadFromCluster(ns, cluster, Absolute(r));
      (cache[Absolute(r) := answer], answer)
  }

  class ManifestImporter {
    const namespaces: Namespaces
    var cache: Cache

    constructor (namespaces: Namespaces)
      ensures this.namespaces == namespaces && cache == map[]
    {
      this.namespaces, cache := namespaces, map[];
    }

    method Import(importedFrom: string, importPath: string, cluster: Cluster) returns (answer: Answer)
      modifies this
      ensures (cache, answer) == Imported(namespaces, old(cache), cluster, Request(importedFrom, importPath))
    {
      if importPath == EMBEDDED { return Ok(Source(BuiltIn, importPath)); }
      var abs := MakeAbsoluteImportPath(importedFrom, importPath);
      if abs in cache { return cache[abs]; }
      answer := LoadFromCluster(namespaces, cluster, abs);
      cache := cache[abs := answer];
    }
  }

  /** An import together with the cluster as it is when the import happens. */
  datatype Event = Event(request: Request, cluster: Cluster)

  function CacheAfter(ns: Namespaces, events: seq<Event>): Cache {
    if events == [] then map[]
    else
      var e := events[|events| - 1];
      Imported(ns, CacheAfter(ns, events[..|events| - 1]), e.cluster, e.request).0
  }

  function AnswerTo(ns: Namespaces, events: seq<Event>, i: nat): Answer
    requires i < |events|
  {
    Imported(ns, CacheAfter(ns, events[..i]), events[i].cluster, events[i].request).1
  }

  /** Whether an import reads from the cluster. */
  predicate Fetches(ns: Namespaces, events: seq<Event>, i: nat)
    requires i < |events|
  {
    events[i].request.importPath != EMBEDDED && Absolute(events[i].request) !in CacheAfter(ns, events[..i])
  }

  /** Entries never change and never go away. */
  lemma {:induction false} EntriesStay(ns: Namespaces, events: seq<Event>, i: nat, path: string)
    requires i <= |events| && path in CacheAfter(ns, events[..i])
    ensures path in CacheAfter(ns, events) && CacheAfter(ns, events)[path] == CacheAfter(ns, events[..i])[path]
  {
    if i < |events| {
      var rest := events[..|events| - 1];
      assert rest[..i] == events[..i];
      EntriesStay(ns, rest, i, path);
    } else {
      assert events[..i] == events;
    }
  }

  /** Every entry was put there by the first import of its path, from the cluster as it was then. */
  lemma {:induction false} EntryWasFetched(ns: Namespaces, events: seq<Event>, path: string) returns (k: nat)
    requires path in CacheAfter(ns, events)
    ensures k < |events| && Fetches(ns, events, k) && Absolute(events[k].request) == path
    ensures CacheAfter(ns, events)[path] == LoadFromCluster(ns, events[k].cluster, path)
    ensures AnswerTo(ns, events, k) == CacheAfter(ns, events)[path]
  {
    var rest := events[..|events| - 1];
    if path in CacheAfter(ns, rest) {
      k := EntryWasFetched(ns, rest, path);
      assert rest[..k] == events[..k] && rest[k] == events[k];
    } else {
      k := |events| - 1;
    }
  }

  /** A path that is read from the cluster was not imported before. */
  lemma FetchIsFirst(ns: Namespaces, events: seq<Event>, j: nat, k: nat)
    requires j < k < |events| && Fetches(ns, events, k) && events[j].request.importPath != EMBEDDED
    ensures Absolute(events[j].request) != Absolute(events[k].request)
  {
    hide Absolute;
    var path := Absolute(events[j].request);
    assert events[..k][..j + 1] == events[..j + 1] && events[..j + 1][..j] == events[..j];
    assert path in CacheAfter(ns, events[..j + 1]);
    EntriesStay(ns, events[..k], j + 1, path);
  }

  /** There is at most one read from the cluster for one path. */
  lemma OneFetchPerPath(ns: Namespaces, events: seq<Event>, i: nat, j: nat)
    requires i < j < |events| && Fetches(ns, events, i) && Fetches(ns, events, j)
    ensures Absolute(events[i].request) != Absolute(events[j].request)
  {
    FetchIsFirst(ns, events, i, j);
  }

  /**
   Within one rendering a path is read once: every import of it gives the same answer, the one a
   direct lookup gave at its first import, however the cluster changes in between.
   */
  lemma AnswersAreFirstLookups(ns: Namespaces, events: seq<Event>, i: nat) returns (k: nat)
    requires i < |events| && events[i].request.importPath != EMBEDDED
    ensures k <= i && Absolute(events[k].request) == Absolute(events[i].request) && events[k].request.importPath != EMBEDDED
    ensures forall j :: 0 <= j < k && events[j].request.importPath != EMBEDDED ==>
              Absolute(events[j].request) != Absolute(events[i].request)
    ensures AnswerTo(ns, events, i) == LoadFromCluster(ns, events[k].cluster, Absolute(events[i].request))
  {
    var path, done := Absolute(events[i].request), events[..i + 1];
    assert done[..i] == events[..i];
    k := EntryWasFetched(ns, done, path);
    assert done[..k] == events[..k] && done[k] == events[k];
    hide Absolute, Imported, AnswerTo;
    forall j | 0 <= j < k && events[j].request.importPath != EMBEDDED
      ensures Absolute(events[j].request) != path
    {
      FetchIsFirst(ns, events, j, k);
    }
  }

  /** With a cluster that does not change the importer is a direct lookup. */
  lemma CacheRefinesLookup(ns: Namespaces, events: seq<Event>, i: nat, cluster: Cluster)
    requires i < |events| && forall e :: e in events ==> e.cluster == cluster
    ensures AnswerTo(ns, events, i) == if events[i].request.importPath == EMBEDDED then Ok(Source(BuiltIn, EMBEDDED))
                                       else LoadFromCluster(ns, cluster, Absolute(events[i].request))
  {
    if events[i].request.importPath != EMBEDDED {
      var k := AnswersAreFirstLookups(ns, events, i);
      assert events[k] in events;
    }
  }

  // ---- recording and replaying ----

  /** The evaluator: what it imports next, given all answers so far, or nothing when it is done. */
  type Evaluator = seq<Answer> -> Option<Request>

  /** Up to n imports through the caching importer; the cluster may differ from import to import. */
  function Online(ns: Namespaces, next: Evaluator, at: nat -> Cluster, n: nat): (Cache, seq<Answer>) {
    if n == 0 then (map[], [])
    else
      var (cache, answers) := Online(ns, next, at, n - 1);
      match next(answers)
      case None => (cache, answers)
      case Some(r) =>
        var (c, a) := Imported(ns, cache, at(n - 1), r);
        (c, answers + [a])
  }

  /** The offline importer. */
  function MemoryImport(contents: map<string, Contents>, r: Request): Answer {
    if r.importPath == EMBEDDED then Ok(Source(BuiltIn, EMBEDDED))
    else if Absolute(r) in contents then Ok(Source(contents[Absolute(r)], Absolute(r)))
    else Err(NotRecorded)
  }

  function Offline(contents: map<string, Contents>, next: Evaluator, n: nat): seq<Answer> {
    if n == 0 then []
    else
      var answers := Offline(contents, next, n - 1);
      match next(answers)
      case None => answers
      case Some(r) => answers + [MemoryImport(contents, r)]
  }

  /** Every entry is a library found at its own path. */
  predicate AllFound(cache: Cache) {
    forall p :: p in cache ==> cache[p].Ok? && cache[p].value.foundAt == p && cache[p].value.contents.Library?
  }

  /** The libraries written to an input file, collected from the cache in any order. */
  method Harvest(cache: Cache) returns (libraries: map<string, string>)
    requires AllFound(cache)
    ensures libraries.Keys == cache.Keys
    ensures forall p :: p in cache ==> libraries[p] == cache[p].value.contents.text
  {
    libraries := map[];
    var rest := cache.Keys;
    while rest != {}
      invariant rest <= cache.Keys && libraries.Keys == cache.Keys - rest
      invariant forall p :: p in libraries ==> libraries[p] == cache[p].value.contents.text
      decreases rest
    {
      var p :| p in rest;
      libraries := libraries[cache[p].value.foundAt := cache[p].value.contents.text];
      rest := rest - {p};
    }
  }

  /** The contents of the offline importer: the libraries of an input file and the embedded one. */
  method MemoryContents(libraries: map<string, string>) returns (contents: map<string, Contents>)
    ensures contents.Keys == libraries.Keys + {EMBEDDED} && contents[EMBEDDED] == BuiltIn
    ensures forall p :: p in libraries && p != EMBEDDED ==> contents[p] == Library(libraries[p])
  {
    contents := map[];
    var rest := libraries.Keys;
    while rest != {}
      invariant rest <= libraries.Keys && contents.Keys == libraries.Keys - rest
      invariant forall p :: p in contents ==> contents[p] == Library(libraries[p])
      decreases rest
    {
      var p :| p in rest;
      contents := contents[p := Library(libraries[p])];
      rest := rest - {p};
    }
    contents := contents[EMBEDDED := BuiltIn];
  }

  /** An absolute path always has a slash, so no entry is shadowed by the embedded library. */
  lemma AbsoluteHasSlash(r: Request)
    ensures '/' in Absolute(r) && Absolute(r) != EMBEDDED
  {
    var path := TrimPrefix(r.importPath, "./");
    CountZero(path, '/');
    if Count(path, '/') == 0 {
      var dir := BeforeLast(r.importedFrom, '/');
      assert (dir + "/" + path)[|dir|] == '/';
    }
    assert '/' !in EMBEDDED;
  }

  /** A successful import adds at most a library found at its own path. */
  lemma ImportRecords(ns: Namespaces, cache: Cache, cluster: Cluster, r: Request)
    requires AllFound(cache) && EMBEDDED !in cache && Imported(ns, cache, cluster, r).1.Ok?
    ensures AllFound(Imported(ns, cache, cluster, r).0) && EMBEDDED !in Imported(ns, cache, cluster, r).0
  {
    AbsoluteHasSlash(r);
    hide Absolute, PlaceOf;
  }

  /** A run without failures had none before its last import either. */
  lemma OnlineStep(ns: Namespaces, next: Evaluator, at: nat -> Cluster, n: nat)
    requires n > 0 && forall a :: a in Online(ns, next, at, n).1 ==> a.Ok?
    ensures forall a :: a in Online(ns, next, at, n - 1).1 ==> a.Ok?
    ensures var (cache, answers) := Online(ns, next, at, n - 1);
            match next(answers)
            case None => Online(ns, next, at, n) == (cache, answers)
            case Some(r) =>
              && Online(ns, next, at, n).0 == Imported(ns, cache, at(n - 1), r).0
              && Online(ns, next, at, n).1 == answers + [Imported(ns, cache, at(n - 1), r).1]
              && Imported(ns, cache, at(n - 1), r).1.Ok?
  {
    hide Imported;
    var (cache, answers) := Online(ns, next, at, n - 1);
    var all := Online(ns, next, at, n).1;
    assert forall a :: a in answers ==> a in all;
    if next(answers).Some? {
      assert all[|answers|] in all;
    }
  }

  /** In a run without failures everything that was recorded was found. */
  lemma {:induction false} SuccessfulRunRecords(ns: Namespaces, next: Evaluator, at: nat -> Cluster, n: nat)
    requires forall a :: a in Online(ns, next, at, n).1 ==> a.Ok?
    ensures AllFound(Online(ns, next, at, n).0) && EMBEDDED !in Online(ns, next, at, n).0
  {
    if n > 0 {
      hide Online, Imported, AllFound;
      OnlineStep(ns, next, at, n);
      SuccessfulRunRecords(ns, next, at, n - 1);
      var (cache, answers) := Online(ns, next, at, n - 1);
      if next(answers).Some? {
        ImportRecords(ns, cache, at(n - 1), next(answers).value);
      }
    }
  }

  /** The offline importer holds what a run recorded. */
  predicate Holds(contents: map<string, Contents>, cache: Cache) {
    forall p :: p in cache && cache[p].Ok? ==> p in contents && contents[p] == cache[p].value.contents
  }

  /**
   Replaying a run without failures from what it recorded gives the same answer to every import, for
   every evaluator, even one whose imports depend on earlier answers.
   */
  lemma {:induction false} ReplayAgrees(ns: Namespaces, next: Evaluator, at: nat -> Cluster, n: nat, contents: map<string, Contents>)
    requires forall a :: a in Online(ns, next, at, n).1 ==> a.Ok?
    requires Holds(contents, Online(ns, next, at, n).0)
    ensures Offline(contents, next, n) == Online(ns, next, at, n).1
  {
    if n > 0 {
      OnlineStep(ns, next, at, n);
      SuccessfulRunRecords(ns, next, at, n - 1);
      hide Online, Imported, AllFound, Holds;
      var (cache, answers) := Online(ns, next, at, n - 1);
      if next(answers).Some? {
        ReplayedImport(ns, cache, at(n - 1), next(answers).value, contents);
      }
      ReplayAgrees(ns, next, at, n - 1, contents);
    }
  }

  /** What the offline importer holds after an import it held before, and it answers that import alike. */
  lemma ReplayedImport(ns: Namespaces, cache: Cache, cluster: Cluster, r: Request, contents: map<string, Contents>)
    requires AllFound(cache) && Imported(ns, cache, cluster, r).1.Ok? && Holds(contents, Imported(ns, cache, cluster, r).0)
    ensures Holds(contents, cache) && MemoryImport(contents, r) == Imported(ns, cache, cluster, r).1
  {
    hide Absolute, PlaceOf;
  }

  /** Recording, writing out and reading back a run without failures, and then replaying it. */
  method RecordAndReplay(ns: Namespaces, next: Evaluator, at: nat -> Cluster, n: nat) returns (contents: map<string, Contents>)
    requires forall a :: a in Online(ns, next, at, n).1 ==> a.Ok?
    ensures Offline(contents, next, n) == Online(ns, next, at, n).1
  {
    SuccessfulRunRecords(ns, next, at, n);
    var cache := Online(ns, next, at, n).0;
    hide Online, Offline;
    var libraries := Harvest(cache);
    contents := MemoryContents(libraries);
    ReplayAgrees(ns, next, at, n, contents);
  }
}
