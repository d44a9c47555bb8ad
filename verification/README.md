# Espejote: a verified model

Espejote watches ManagedResources. For each it runs one dynamically created controller, which renders a
Jsonnet template, parses the result into a tree of apply and delete operations and executes that tree. This
project models the parts of that machinery whose correctness is not visible in any single function, and
proves what they promise. `dafny verify dfyconfig.toml` checks everything.

| files | part of the system |
|---|---|
| `TokenRefresh` | the HTTP round tripper that refreshes a service account token under an upgraded read-write lock |
| `ControllerLifecycle`, `EventCoalescing`, `History` | creating, replacing and removing instance controllers; waking them without blocking |
| `Fingerprint`, `SelfDelimiting` | the text that is hashed to notice configuration changes |
| `InstanceGate` | building caches and watches, the gate in front of rendering, and the cache lookups of a rendering |
| `TriggerConsistency`, `LibrarySync` | what the reads of one rendering may see while informers go on filling their caches |
| `ApplyGroup`, `ApplyGroupGrammar`, `ApplyGroupInheritance`, `ApplyGroupExecution`, `ApplyGroupDivergence`, `ApplyGroupWalk`, `ApplyGroupPrinter`, `ApplyGroupCalls`, `Unstructured` | the apply-group parser, tree, walk and execution, the Jsonnet functions that print what it parses, and the calls that come out at the other end |
| `Importer`, `Text` | Jsonnet import paths, the caching importer, recording and offline replay |
| `FilteredWatch`, `Selection`, `CollectInput` | filtered informers, what a resource definition selects, and the command line tool's imitation of the controller |
| `JsonnetNode` | cluster values as Jsonnet syntax trees |
| `Base64`, `Bcrypt`, `BcryptKeying` | the encoding layer of the vendored bcrypt, and what it feeds the cipher |
| `Webhooks` | webhook configurations from Admissions |

## How things are modelled

The two concurrent protocols are step systems over any number of goroutines, keys and controllers: a `Run` is
any sequence of states joined by steps, and the theorems are about every position of every run. The clock and
all answers of the cluster are free. The parser is a class with a cursor over tokens; the client that applies
objects is a class that logs its calls and answers them as an adversary chose. Methods that mutate state or
loop are proved equal to specification functions, and the theorems are about those functions. Code that
belongs to others appears as a function-valued parameter about which nothing, or only what is stated, is
assumed: Blowfish, the Jsonnet evaluator, the REST mapping, label selectors, the hash function.

## Where code and documentation part

* `controllers/lib/espejote.libsonnet:470` says that groups inherit the options of their parent. The parser
  inherits after its own loop (`controllers/applygroup/applygroup.go:179`), when the children are already
  parsed, so a policy reaches one level only. The model follows the code: `InheritanceReachesOneLevel` says
  exactly when the two rules give different trees, `InheritanceIsNoticedIff` when some client is called
  differently, and `InheritanceCounterexample` gives a document and a client.
* A rendering reads the object of its trigger (`controllers/managedresource_controller.go:430`) and lists its
  contexts (line 474) one after the other from live caches. A trigger on a context therefore sees its event in
  both, but the list may be newer than the object (`TriggerReadsItsContext`, `ContextShowsDataIff`,
  `DeletedBetweenReads`). In the same way the data of a JsonnetLibrary trigger may be newer than the version
  that was checked, and than the imports (`TriggerDataAfterCheck`).
* The check for JsonnetLibrary triggers always looks for an informer of v1alpha1 (lines 335-346). A trigger on
  any other version of that kind would miss it on every rendering (`SameConfigIsServed`); only v1alpha1 is served.
* An ensure that fails at the last watch (`controllers/managedresource_controller_manager.go:271-275`) does not
  cancel the context it created; all other failing exits do. `FailedEnsureCancels` says so for every run.
* Deleting and recreating a ManagedResource only guarantees that the old controller was stopped, not that it
  is done, when the new one starts (`RecreateOverlaps`).
* A definition with an explicitly empty namespace has the fingerprint of one without a namespace, although the
  first selects all namespaces and the second one (`EmptyNamespaceCollides`); nothing else that changes the
  selection collapses (`OnlyEmptyNamespaceIsLost`).
* The gate remembers generations. A recreated ManagedResource that reuses a generation number passes it with
  any spec (`ReusedGenerationPasses`).
* `Apply` has no default case for error policies: a group with any other policy swallows errors
  (`UnknownPolicyDropsErrors`). The parser never builds one (`ParsedTreesAreSound`).
* The prefix test in `controllers/jsonnet.go:83` also holds in a local library that is named lib
  (`LocalStaysLocal`).
* For a trigger with both an interval and a context to watch, `cacheFor` looks at the interval first and the
  command line tool at the context (`SameRequestsIff`).
* The validating configuration is written under `MutatingWebhookName` (`controllers/admission_controller.go:144`).
  Both names come from one flag, so this has no effect.

## Model

| member | source | states |
|---|---|---|
| TokenRefresh.LockHoldsBalanced | controllers/managedresource_controller_manager.go:675-725 | In every interleaving a release is done only by a goroutine that holds what it releases, also on error paths, and when all calls have finished the lock is free. |
| TokenRefresh.OneCreateTokenInFlight | controllers/managedresource_controller_manager.go:703-725 | At most one CreateToken call is in flight; it starts and runs only while the stored token is stale and nobody holds the lock for reading. |
| TokenRefresh.StoredPairIsLastIssued | controllers/managedresource_controller_manager.go:722-724 | Whenever the write lock is free, token and expiration are those of one and the same, latest answer; they change only under the write lock. |
| TokenRefresh.CreateTokenCallsAreSpaced | controllers/managedresource_controller_manager.go:709-729 | Across all goroutines a new call starts only when the latest token has less than an hour left, so more than its life minus an hour lies between an answer and the next call. |
| TokenRefresh.EveryBearerSentIsVouchedFor | controllers/managedresource_controller_manager.go:675-691 | Every bearer sent was, since that RoundTrip began, either found fresh by this goroutine or issued by a CreateToken call that completed. |
| TokenRefresh.WaitersMakeNoCall | controllers/managedresource_controller_manager.go:705-711 | A goroutine that finds the token fresh asks for no lock and makes no CreateToken call for the rest of that call. |
| TokenRefresh.CallsEndAsTheyWent | controllers/managedresource_controller_manager.go:675-727 | A call fails if and only if its own CreateToken call failed, and succeeds if and only if it found the token fresh or was issued one; a RoundTrip has sent its request exactly if it succeeded, TriggerRefresh never sends. |
| TokenRefresh.LockIsAskedForStaleTokens | controllers/managedresource_controller_manager.go:675-704 | A RoundTrip asks for the write lock only after it found the token stale, and no call does so after a check that found it fresh. |
| TokenRefresh.NeverStuck | controllers/managedresource_controller_manager.go:675-725 | While a call is unfinished some goroutine can step, even when waiting writers keep new readers out. |
| TokenRefresh.InvStep | controllers/managedresource_controller_manager.go:675-725 | Every step of every goroutine and the clock keeps the invariant that ties lock state, holders and program counters. |
| ControllerLifecycle.StartedMeansRegisteredOrStopped | controllers/managedresource_controller_manager.go:175-315 | When the controllers lock is free, a started controller is the map's entry for its key exactly if stop was not called on it; per key at most one started controller is not stopped. |
| ControllerLifecycle.StartErrIffDone | controllers/managedresource_controller_manager.go:97-106 | StartErr is non-nil exactly once done is closed. |
| ControllerLifecycle.EnsuresAgree | controllers/managedresource_controller_manager.go:189-208 | Two ensures for the same key and hash get the same controller, however interleaved, unless it was stopped in between for a removal or an ensure with another hash. |
| ControllerLifecycle.StopsAreDue | controllers/managedresource_controller_manager.go:197-207 | A controller is stopped only as the map's entry, by a removal of its key or an ensure with another hash; a new one is made only for a key without entry. |
| ControllerLifecycle.LooksFindTheirOwn | controllers/managedresource_controller_manager.go:189-199 | An ensure that finds a controller with its own hash, under either lock, obtains that one. |
| ControllerLifecycle.CallsEndAsTheyWent | controllers/managedresource_controller_manager.go:175-316 | An ensure returns no controller if and only if one of its own fallible calls failed; while a removal ran there was a moment without an entry for its key. |
| ControllerLifecycle.StartErrIsWhatStartReturned | controllers/managedresource_controller_manager.go:281-288 | The published error is what the controller's own Start returned, or ErrStopped if that was nil. |
| ControllerLifecycle.ReturnedWasObtained | controllers/managedresource_controller_manager.go:175-295 | What an ensure returns was obtained by this very call under a lock, for its own key and hash. |
| ControllerLifecycle.PredecessorIsStoppedAndDone | controllers/managedresource_controller_manager.go:200-207 | When a controller is launched, every earlier one of its key has been stopped, and is done unless it went with the removal of its ManagedResource. |
| ControllerLifecycle.GoneMeansDoneOrRemoved | controllers/managedresource_controller_manager.go:297-316 | A started controller that has left the map is done or was taken out by a removal. |
| ControllerLifecycle.RecreateOverlaps | controllers/managedresource_controller_manager.go:297-316 | A complete run in which a removed controller still runs when its successor is launched. |
| ControllerLifecycle.FailedEnsureCancels | controllers/managedresource_controller_manager.go:221-275 | The controller of a failed ensure never starts, and its context is cancelled for good if and only if the failure was not that of the last watch. |
| ControllerLifecycle.NeverStuck | controllers/managedresource_controller_manager.go:175-316 | While an ensure or removal is unfinished some goroutine can step, waiting for a stopped predecessor included. |
| ControllerLifecycle.InvStep | controllers/managedresource_controller_manager.go:175-316 | Every step keeps the invariant over map, lock, goroutines and controllers. |
| EventCoalescing.NoWakeUpIsLost | controllers/managedresource_controller_manager.go:149-152 | A manager reconcile that no instance reconcile start has followed yet has a token under way, however many sends were dropped. |
| EventCoalescing.ReconcilesAreAccountedFor | controllers/managedresource_controller_manager.go:149-152 | Instance reconciles and tokens under way never exceed manager reconciles plus requeues; the channel never holds two events. |
| EventCoalescing.DistanceNeverGrows | controllers/managedresource_controller_manager.go:149-152 | Until an instance reconcile starts, no step takes a pending token away or back, whoever makes it; exactly the steps that move the foremost token or free the worker bring it closer. |
| EventCoalescing.EveryScheduleLeadsToStart | controllers/managedresource_controller_manager.go:271-273 | In every order of source and worker steps a pending token leads, within a number of steps fixed at the outset, to a state where only an instance reconcile can come next, without the manager. |
| SelfDelimiting.PrintIsPrefixFree | controllers/managedresource_controller_manager.go:556-564 | JSON texts are self-delimiting: equal texts with anything behind them are texts of equal values. |
| Fingerprint.PreimageIsDecodable | controllers/managedresource_controller_manager.go:556-569 | Two configurations are hashed from the same text if and only if they are the same up to what omitempty erases. |
| Fingerprint.ChangesAreNoticed | controllers/managedresource_controller_manager.go:556-569 | The same field by field: any change of a name, interval, watched context, service account or field of a resource changes the text, except between none and an empty namespace or label selector. |
| Fingerprint.KindIsTheApiVersion | api/v1alpha1/managed_resource_types.go:209-225 | Group and version are the two parts of the API version around its first slash. |
| Fingerprint.OnlyEmptyNamespaceIsLost | api/v1alpha1/managed_resource_types.go:160-197 | Definitions with the same text select the same unless one has no namespace and the other an empty one. |
| Fingerprint.EmptyNamespaceCollides | controllers/managedresource_controller_manager.go:470-472 | Such a pair exists for every definition: same text, different selection. |
| InstanceGate.FindFirstDuplicate | controllers/managedresource_controller_manager.go:649-659 | Finds a duplicate exactly if there is one, and then the first element that repeats an earlier one. |
| InstanceGate.CacheFor | controllers/managedresource_controller_manager.go:347-411 | Either the first problem in the code's order, duplicates first, or fresh caches and sources for exactly the spec's definitions. |
| InstanceGate.BuildsIffWellDefined | controllers/managedresource_controller_manager.go:359-408 | Building fails for no spec whose definitions are all sound and whose calls all succeed, and for every other. |
| InstanceGate.ErrorsNameTheirCause | controllers/managedresource_controller_manager.go:359-408 | The error names a definition that has the problem it tells of. |
| InstanceGate.TriggerSharesCache | controllers/managedresource_controller_manager.go:385-402 | A trigger on a context has that context's cache object itself. |
| InstanceGate.Reconciler.Reconcile | controllers/managedresource_controller.go:173-235 | A reconcile's outcome and the remembered generation, for every version of the resource it may read. |
| InstanceGate.RenderContexts | controllers/managedresource_controller.go:454-489 | The loop collects, per context with a resource, the list of that context's cache, or the first error. |
| InstanceGate.RememberedMatches | controllers/managedresource_controller.go:208-218 | After any run, the remembered generation's fingerprint is the creator's. |
| InstanceGate.GateIsExact | controllers/managedresource_controller.go:208-218 | Over whole runs a present resource passes the gate if and only if its fingerprint is the one the caches were built for, if a generation determines a spec. |
| InstanceGate.ReusedGenerationPasses | controllers/managedresource_controller.go:208 | Without that assumption any spec passes. |
| InstanceGate.LastPassedPassesAgain | controllers/managedresource_controller.go:208-218 | The generation let through last is remembered and passes again, and refused versions leave no trace. |
| InstanceGate.RequestsNameTheirObjects | controllers/managedresource_controller_manager.go:572-591 | What a reconcile reads for a request is the object the request was made for, in its kind. |
| InstanceGate.RendersIff | controllers/managedresource_controller.go:328-489 | A reconcile with the built configuration renders if and only if a watched library is in sync, the trigger's read did not break down and every context was listed; it waits exactly for libraries out of sync; a deleted object is rendered as nothing. |
| InstanceGate.SameConfigIsServed | controllers/managedresource_controller.go:335-489 | With the configuration the caches were built from, no emitted request misses a cache, an informer is missed exactly for libraries watched in another version than the controller's, and each context is rendered from its own cache. |
| InstanceGate.InstanceRunIsServed | controllers/managedresource_controller.go:208-230 | Over whole runs an instance renders only versions with its configuration, skips exactly the others, never fails for a missing cache, and for a missing informer exactly in the case above. |
| TriggerConsistency.TriggerReadsItsContext | controllers/managedresource_controller.go:399-489 | Read-after-trigger: while the cache goes on changing, the data of a trigger on a context is what its event or a later one left of the object, and the context shows what that same event or a still later one left. |
| TriggerConsistency.ContextShowsDataIff | controllers/managedresource_controller.go:430-474 | The context shows exactly the trigger's data if and only if the last event of the object between the two reads, if there is any, left it so. |
| TriggerConsistency.DeletedBetweenReads | controllers/managedresource_controller.go:430-474 | For every trigger on a context of whatever was built there are a history and moments of reading for which an object is delivered with an empty context. |
| LibrarySync.ImportsAreInSync | controllers/managedresource_controller.go:328-364 | Every successful import of the watched library in a rendering for its trigger, however late, has the contents of a version no older than the triggering event's and the checked one, although it is read from another cache. |
| LibrarySync.TriggerDataAfterCheck | controllers/managedresource_controller.go:328-430 | The data of that rendering is absent or no older than the checked version, and is the checked version if and only if the last event in between left it so. |
| Unstructured.StripKeepsIdentity | controllers/applygroup/applygroup.go:318-328 | A stripped deletion target has kind, namespace and name of the original, and stripping again changes nothing. |
| Unstructured.OtherFieldsDoNotIdentify | controllers/applygroup/applygroup.go:318-328 | Fields besides apiVersion, kind and metadata do not change identity or stripped form. |
| ApplyGroup.UnmarshalJSONFrom | controllers/applygroup/applygroup.go:113-189 | The cursor-moving parser computes the specification parser's tree or error and stops where it stops. |
| ApplyGroupGrammar.ParserIsExact | controllers/applygroup/applygroup.go:113-189 | The parser succeeds if and only if a well-formed document starts at the cursor; it then consumed exactly that one value and built its tree. |
| ApplyGroupGrammar.AcceptedParses | controllers/applygroup/applygroup.go:113-189 | Every well-formed value is parsed from its tokens, wherever they stand. |
| ApplyGroupGrammar.ParsedIsAccepted | controllers/applygroup/applygroup.go:113-189 | Whatever is parsed is the tokens of one well-formed value: config only first in an array, policy Continue or Abort, kinds everywhere. |
| ApplyGroupGrammar.AcceptedIsWellFormed | controllers/applygroup/applygroup.go:113-189 | What the parser accepts is, said without the parser: a kind on every object, no config at the root or after index 0, only the two policies, and options of the right types, deletion options only on marked objects. |
| ApplyGroupGrammar.ParsedObjectIsReadable | controllers/applygroup/applygroup.go:273-385 | Which objects the option readers refuse, and that exactly the marked ones become deletions. |
| ApplyGroupGrammar.AppliedObjectCarries | controllers/applygroup/applygroup.go:273-315 | Any applied object keeps all but the options key; field manager, suffix, force and sub-resource follow their own precedence. |
| ApplyGroupGrammar.DeletedObjectCarries | controllers/applygroup/applygroup.go:318-385 | Any object marked for deletion becomes its identity with each deletion option it gives. |
| ApplyGroupGrammar.ArrayIsItsElements | controllers/applygroup/applygroup.go:139-189 | The tree of an array is a group of the trees of its elements but the config, each as if parsed alone, in order, with the policy its config names or else its parent's. |
| ApplyGroupGrammar.ParsedTreesAreSound | controllers/applygroup/applygroup.go:113-189 | No accepted tree has a config node, an unknown kind, a leaf without resource or another policy. |
| ApplyGroupInheritance.InheritanceReachesOneLevel | controllers/applygroup/applygroup.go:158-181 | The parser's policies are those of the nearest ancestor if and only if no array that sets a policy has a bare array around another bare one. |
| ApplyGroupInheritance.AgreeIffNoGapBelow | controllers/applygroup/applygroup.go:158-181 | The same below any ancestors, for any view of policies. |
| ApplyGroupDivergence.ToldApartIff | controllers/applygroup/applygroup.go:239-256 | Some client is called differently, or gets other errors reported, for two trees that differ only in policies, if and only if a group aborts in just one of them and has something to call in one member after another. |
| ApplyGroupDivergence.InheritanceIsNoticedIff | controllers/applygroup/applygroup.go:158-181 | A client can tell the parser's inheritance from that of the nearest ancestor if and only if some bare array, at least the second in a row below an array that sets Abort, has objects in two of its members. |
| ApplyGroupDivergence.InheritanceCounterexample | controllers/lib/espejote.libsonnet:470 | An Abort group around two nested plain arrays of two objects: with a client that fails the first, the second is applied by the code and would not be by the documented rule. |
| ApplyGroupExecution.Apply | controllers/applygroup/applygroup.go:208-263 | The calls that reach the client and the returned errors are those of the specification, for any client. |
| ApplyGroupExecution.ErrorsAreTheFailedCalls | controllers/applygroup/applygroup.go:239-256 | The flattened errors are exactly the failed calls in issue order, with NotFound on delete a success. |
| ApplyGroupExecution.IssuesAreLeafCalls | controllers/applygroup/applygroup.go:213-246 | Every issued call is that of a leaf of the tree, answered in turn. |
| ApplyGroupExecution.IssuesCarryTheirNodes | controllers/applygroup/applygroup.go:213-243 | An apply carries the node's resource, options and sub-resource, a deletion its deletion options and the identity of its resource; NotFound fails an apply and not a deletion. |
| ApplyGroupExecution.IssuedInOrder | controllers/applygroup/applygroup.go:245-256 | Calls are issued in depth-first order. |
| ApplyGroupExecution.EachLeafAtMostOnce | controllers/applygroup/applygroup.go:245-256 | No leaf's call is issued twice. |
| ApplyGroupExecution.SkippedIffAborted | controllers/applygroup/applygroup.go:247-254 | A leaf's call is not issued if and only if an Abort group around it has an earlier member with a failed call. |
| ApplyGroupExecution.NilMeansAllSucceeded | controllers/applygroup/applygroup.go:208-263 | nil is returned if and only if every leaf's call was issued and none failed. |
| ApplyGroupExecution.UnknownPolicyDropsErrors | controllers/applygroup/applygroup.go:249-254 | A group with any other policy returns nil although a call failed. |
| ApplyGroupWalk.WalkIsDepthFirst | controllers/applygroup/applygroup.go:193-203 | Walk visits a prefix of the depth-first order, all of it unless a callback fails. |
| ApplyGroupWalk.PreorderIsInOrder | controllers/applygroup/applygroup.go:193-203 | The depth-first order is strictly increasing, so each node comes once. |
| ApplyGroupWalk.WalkReplacesResources | controllers/applygroup/applygroup.go:193-203 | The walked tree is the tree, node by node, with the resources as the callback left them. |
| ApplyGroupWalk.DefaultNamespaceMeaning | controllers/managedresource_controller.go:266-275 | Defaulting gives namespaced objects without a namespace the ManagedResource's, changes nothing else in metadata or elsewhere, and fails exactly for kinds of unknown scope. |
| ApplyGroupWalk.DefaultingKeepsSound | controllers/managedresource_controller.go:244-278 | Defaulting namespaces during the walk keeps a tree sound. |
| ApplyGroupWalk.ParseWalkApply | controllers/managedresource_controller.go:239-263 | Nothing is sent unless the whole document parses and every node passes the walk; success means every leaf was issued and succeeded. |
| ApplyGroupPrinter.PrintedTemplatesParse | controllers/lib/espejote.libsonnet:366-383 | Round trip: the tokens of whatever applyGroup, markForDelete and applyOptions print from good objects parse completely to a tree of the same shape with the same options. |
| ApplyGroupPrinter.OptionsRecover | controllers/lib/espejote.libsonnet:448-463 | Printed apply options are recovered, the options key is gone, and field manager and force resolve by precedence. |
| ApplyGroupPrinter.DeletionRecovers | controllers/applygroup/applygroup.go:335-385 | Printed deletion options are recovered with a target stripped to its identity. |
| ApplyGroupPrinter.RendersIff | controllers/lib/espejote.libsonnet:366-383 | A template evaluates if and only if all its propagation and error policies are known ones. |
| ApplyGroupCalls.CallsAreAskedFor | controllers/managedresource_controller.go:239-275 | From template to cluster: every issued call is the apply or the deletion that some object of the template asks for, with its namespace defaulted and its options in their precedence. |
| ApplyGroupCalls.SilenceMeansAllWasDone | controllers/managedresource_controller.go:239-275 | If nothing is reported, every object of the template got its call and none failed. |
| Importer.PathsResolve | controllers/jsonnet.go:78-87 | The string operations on import paths compute the places a structural rule gives. |
| Importer.TopPathsResolve | controllers/jsonnet.go:78-87 | The same for the template, whose name has no slash: two segments are a local library, three that start with lib a shared one. |
| Importer.NextImportIsDestination | controllers/jsonnet.go:78-117 | Along any chain from the template the next import gives the text at the place its paths lead to, whatever clusters hold, or exactly the reason why there is none. |
| Importer.TemplateChainsStayLocal | controllers/jsonnet.go:78-117 | From the template one- and two-segment imports lead to local libraries only, as long as none of them is named lib. |
| Importer.DotSlashIsNothing | controllers/jsonnet.go:79 | A leading ./ changes nothing about where a path leads. |
| Importer.DotSlashNamesSiblings | controllers/jsonnet.go:44-52 | A name behind ./ is that of a sibling, also the built-in library's. |
| Importer.ChainsStayShared | controllers/jsonnet.go:78-117 | Along import chains of any length, what is imported from a shared library is found in shared libraries. |
| Importer.LocalStaysLocal | controllers/jsonnet.go:78-87 | From a local library one-segment paths stay in it, and two-segment paths stay local if and only if it is not named lib. |
| Importer.ChainsStayLocal | controllers/jsonnet.go:78-117 | Chains of such imports stay local as long as they avoid a library named lib. |
| Importer.OnlySharedWithoutLocalNamespace | controllers/jsonnet.go:101-106 | Without a local namespace nothing but shared libraries is found. |
| Importer.SharedImportsIgnoreTheRest | controllers/jsonnet.go:78-117 | What an import from a shared library gives, failures included, is the same for all local namespaces and all clusters that agree on the library namespace. |
| Importer.LocalImportsIgnoreTheRest | controllers/jsonnet.go:78-117 | What one- and two-segment imports from a local library not named lib give depends on the local namespace alone. |
| Importer.SharedChainsIgnoreTheRest | controllers/jsonnet.go:78-117 | Below a shared library a whole import chain is the same in every cluster with the same library namespace. |
| Importer.EmbeddedImportsNothing | controllers/lib/espejote.libsonnet:1 | The embedded library's only import is never found, so chains end there. |
| Importer.ManifestImporter.Import | controllers/jsonnet.go:49-74 | Answer and cache after an import are those of the specification, whatever the cluster holds at that moment. |
| Importer.OneFetchPerPath | controllers/jsonnet.go:58-72 | The cluster is read at most once per path. |
| Importer.EntriesStay | controllers/jsonnet.go:58-72 | Cache entries never change. |
| Importer.AnswersAreFirstLookups | controllers/jsonnet.go:49-74 | Every import of a path gives what a direct lookup gave at its first import, however the cluster changes. |
| Importer.CacheRefinesLookup | controllers/jsonnet.go:49-74 | With an unchanging cluster the importer is a direct lookup. |
| Importer.Harvest | cmd/collect_input.go:103-106 | Collecting the libraries gives each path's contents, in any iteration order. |
| Importer.ReplayAgrees | cmd/render.go:213-223 | Replaying a run without failures from its cache gives identical answers, also to an evaluator whose imports depend on earlier answers. |
| Importer.RecordAndReplay | cmd/collect_input.go:96-106 | Recording, writing out, reading back and replaying gives the answers of the online run. |
| FilteredWatch.KeyOnlyCommutes | controllers/managedresource_controller_manager.go:599-645 | For every history of lists and events and every predicate on the key, the store of the filtered stream is the filtered store. |
| FilteredWatch.CommutesIffKeyOnly | controllers/managedresource_controller_manager.go:593-599 | That holds for exactly the predicates that depend on the key alone. |
| FilteredWatch.ChangingObjectStays | controllers/managedresource_controller_manager.go:597-598 | An object that stops passing a filter on a mutable field stays in the store in its old version. |
| FilteredWatch.NameFilterCommutes | controllers/managedresource_controller_manager.go:483-489 | The name filter of resource definitions is of that kind. |
| FilteredWatch.NotificationsAreKept | controllers/managedresource_controller_manager.go:599-645 | Handlers of a filtered informer hear everything about kept objects and nothing about others. |
| Selection.List | cmd/render.go:356-403 | The listing loop yields the passing objects, transformed, in order. |
| Selection.Get | cmd/render.go:313-354 | Finds what the specification finds; the target is overwritten only by the server's object of that key. |
| Selection.CacheMeansDefinition | controllers/managedresource_controller_manager.go:453-526 | A cache holds exactly the objects its definition describes: name, namespace rules, labels, match and ignore names; without managed fields unless those are asked for. |
| Selection.SelectorFailsIff | controllers/managedresource_controller_manager.go:453-481 | There is nothing to select with exactly if the kind is unknown or the label selector unreadable. |
| Selection.ListIsCache | cmd/render.go:356-403 | The tool's list holds exactly the objects of the controller's cache, each once, for every history of the cache's informer. |
| Selection.GetIsCache | cmd/render.go:313-354 | A single read finds exactly the cache's object under that key. |
| Selection.GetIsList | cmd/render.go:313-403 | Get succeeds if and only if List contains the key, with the same object. |
| CollectInput.Collect | cmd/collect_input.go:119-239 | What is collected, when collecting fails, and that all triggers and then all contexts are tried before failing. |
| CollectInput.FailuresNameTriggers | cmd/collect_input.go:151-204 | The reported triggers are those without a source and those that could not be listed. |
| CollectInput.FailuresNameContexts | cmd/collect_input.go:206-233 | The reported contexts are those that could not be listed. |
| CollectInput.ContextsAreListedInOrder | cmd/collect_input.go:206-233 | Without failures the contexts come one by one in the order of the spec, each with its list. |
| CollectInput.NothingIsCollectedTwice | cmd/collect_input.go:151-201 | No rendering is asked for twice, and the first is that without a trigger. |
| CollectInput.ToolImitatesController | cmd/collect_input.go:119-239 | From one cluster to the renderings: lists of the tool and caches of the controller that come from the same server state give the same inputs for every emitted request whose object is not gone, with the same contexts, if and only if no trigger sets both an interval and a context. |
| CollectInput.SameRequestsIff | cmd/collect_input.go:127-205 | The same for any lists and caches, if a list enumerates its cache wherever listing succeeds. |
| CollectInput.SameContextsRendered | cmd/collect_input.go:207-233 | The contexts the tool renders with are one for each of the controller's, with the objects of its cache. |
| CollectInput.SameSpecsAccepted | controllers/managedresource_controller_manager.go:347-411 | If listing fails where building a cache does, tool and controller accept the same specs of that kind. |
| JsonnetNode.Convert | controllers/managedresource_controller.go:491-532 | For any order of visiting fields, evaluating the tree gives the value with its integers rounded to doubles; conversion fails exactly for unsupported values. |
| JsonnetNode.ConvertAndEvaluate | controllers/managedresource_controller.go:491-532 | Converting and evaluating gives the very value if and only if all its integers are doubles. |
| JsonnetNode.SameMeaning | controllers/managedresource_controller.go:503-508 | The value is preserved exactly if and only if all its integers are doubles. |
| JsonnetNode.RoundingIsExact | controllers/managedresource_controller.go:503-508 | Integers up to a magnitude of 2^53 all are. |
| JsonnetNode.FirstLost | controllers/managedresource_controller.go:503-508 | 2^53 + 1 is not. |
| Base64.RoundTrip | internal/bcrypt/base64.go:15-37 | Decoding an encoded text gives the bytes back if and only if their number is not a multiple of three; otherwise it fails. |
| Base64.UnpaddedShape | internal/bcrypt/base64.go:15-23 | The text has ceil(4n / 3) letters, no padding, and padding it restores the padded text. |
| Base64.WholeQuantaAreRefused | internal/bcrypt/base64.go:25-29 | Any text whose length is a multiple of four is refused. |
| Base64.LettersAreTheAlphabet | internal/bcrypt/base64.go:11 | The digits are the alphabet of the original, letter by letter. |
| Bcrypt.Base64Encode | internal/bcrypt/base64.go:15-23 | The trimming loop yields the unpadded text with the padding left as spare capacity. |
| Bcrypt.Base64Decode | internal/bcrypt/base64.go:25-37 | Appending pads may write into spare capacity but leaves the visible bytes, and all others, as they are. |
| Bcrypt.ExpensiveBlowfishSetup | internal/bcrypt/bcrypt.go:254-278 | Key expansion over 2^cost rounds; salt bytes unchanged and the password's array never written. |
| Bcrypt.Bcrypt | internal/bcrypt/bcrypt.go:233-252 | The in-place encryption loops compute 64 encryptions of each block and encode 23 of the 24 bytes. |
| Bcrypt.Hashed.Hash | internal/bcrypt/bcrypt.go:280-300 | Writing with a moving index produces the printed record, also for hashes that are too short or too long. |
| Bcrypt.NewFromHash | internal/bcrypt/bcrypt.go:205-231 | The record or the first error of the specification parser. |
| Bcrypt.GenerateFromPasswordWithSalt | internal/bcrypt/bcrypt.go:125-139 | The printed record or the first error of the specification, whatever capacity the salt slice has. |
| Bcrypt.CompareHashAndPassword | internal/bcrypt/bcrypt.go:141-158 | The outcome of the specification, although both printed records share one salt slice that decoding appends to. |
| Bcrypt.ParsePrinted | internal/bcrypt/bcrypt.go:280-330 | Parsing a printed proper record, with or without minor version, recovers version, cost, salt and hash, whatever follows. |
| Bcrypt.ParseFailures | internal/bcrypt/bcrypt.go:205-330 | Which texts are refused and for what, in order; all others are read, every byte behind the cost as salt and hash. |
| Bcrypt.GenerateFailures | internal/bcrypt/bcrypt.go:125-139 | Generating fails for exactly three reasons, tested in order: long password, wrong salt size, cost above 31. |
| Bcrypt.GeneratedText | internal/bcrypt/bcrypt.go:125-203 | A generated hash says 2a, the cost in two digits, 10 for one below 4, and the encoded salt. |
| Bcrypt.CompareAcceptsGenerated | internal/bcrypt/bcrypt.go:125-158 | Comparison accepts every generated hash with its password, for all passwords up to 72 bytes and costs up to 31. |
| Bcrypt.CompareIsHashEquality | internal/bcrypt/bcrypt.go:141-158 | For a proper record comparison is exactly equality of the bcrypt hashes. |
| BcryptKeying.CipherIsFed | internal/bcrypt/bcrypt.go:237-277 | For every cipher: it is set up with the password and a zero byte and the decoded salt, then expanded 2^cost times with the one and the other, and so keyed it encrypts what becomes the hash. |
| BcryptKeying.EveryInputMatters | internal/bcrypt/bcrypt.go:233-278 | For any two different choices of password, salt and cost there is a cipher under which the hashes differ. |
| BcryptKeying.OtherPasswordsAreRefused | internal/bcrypt/bcrypt.go:125-158 | For any two passwords there is a cipher under which comparison refuses one with the hash of the other. |
| BcryptKeying.TextIsEncrypted64Times | internal/bcrypt/bcrypt.go:233-252 | Under a counting cipher every hash decodes to the 23 first letters of the magic text, each encrypted 64 times. |
| Webhooks.CompareIsLexicographic | controllers/admission_controller.go:51-53 | Ten times one comparison plus another is the lexicographic order, antisymmetric, zero only for equal keys. |
| Webhooks.CompareIsTransitive | controllers/admission_controller.go:51-53 | It is transitive. |
| Webhooks.SortedIsUnique | controllers/admission_controller.go:47-53 | The sorted list depends only on which admissions there are. |
| Webhooks.Partition | controllers/admission_controller.go:54-62 | The loop separates mutating from validating admissions, in order. |
| Webhooks.PartitionConserves | controllers/admission_controller.go:54-62 | Every admission is in exactly one list, as often as it was listed. |
| Webhooks.ConfigurationsDependOnSets | controllers/admission_controller.go:43-202 | The applied configurations do not depend on listing order or sorting algorithm. |
| Webhooks.Reconcile | controllers/admission_controller.go:43-202 | Which configurations are applied, in order, and that a failing patch ends the reconcile. |
| Webhooks.WebhookNamesDiffer | controllers/admission_controller.go:89-118 | Within a configuration all webhook names differ if no namespace contains a dot. |
| Webhooks.DottedNamespacesCollide | controllers/admission_controller.go:91 | With a dot they need not. |
| Webhooks.NamespacedWebhooksAreConfined | controllers/admission_controller.go:89-116 | Every admission has a webhook in the configuration of its kind, with its own path and namespace selector, its rules in Namespaced scope and its settings. |
| Webhooks.ClusterAdmissionsAreTakenOver | controllers/admission_controller.go:117-140 | Every cluster-wide admission has one with its namespace selector, rules and settings unchanged. |
| Webhooks.WebhooksAreCounted | controllers/admission_controller.go:86-202 | There are as many webhooks as admissions in all. |
| Webhooks.PartitionKeepsOrder | controllers/admission_controller.go:54-62 | Each of the two lists stays sorted. |
| Webhooks.ConfinedWebhooksAreAdmissions | controllers/admission_controller.go:89-116 | Every webhook confined to a namespace belongs to an admission of that namespace and kind, with its path, rules and settings. |
| Webhooks.RulesWithScopeEnforced | controllers/admission_controller.go:230-237 | The new rules are scoped copies that share nothing with the given ones, which are not modified. |

## Left out

- ApplyGroup.UnmarshalJSONFrom: an object is one token with its decoded fields, because the parser hands objects to the object decoder in one call; JSON text inside objects is not modelled.
- ApplyGroupExecution.Apply: the tree is a value whose nodes do not refer to their parents; the parser passes the parent's policy down instead, and aliasing between nodes does not occur.
- ApplyGroupWalk.ParseWalkApply: a ManagedResource always has a namespace, so the empty one is excluded.
- ControllerLifecycle.NeverStuck: fairness of the scheduler and of the Go runtime is not modelled; some goroutine can always step, not that it eventually does.
- EventCoalescing.EveryScheduleLeadsToStart: requeues with backoff, rate limits and other requests in the work queue are not modelled.
- Fingerprint.PreimageIsDecodable: MD5 is a parameter elsewhere; nothing is claimed about its collisions. Durations are kept as the text they are written as, label maps in their sorted order.
- TriggerConsistency.TriggerReadsItsContext: that an informer has applied an event to its store before it hands out the request, and that a later read sees no less than an earlier one, is taken from client-go; creating and closing informers is left out.
- LibrarySync.ImportsAreInSync: a library that is deleted and created again may have a smaller generation; the statements are about libraries whose generation does not fall, in both caches.
- InstanceGate.InstanceRunIsServed: assumes that one generation is one spec and that no other configuration has the same hash.
- InstanceGate.CacheFor: informers, synchronisation and the token client behind a cache are not modelled; creating a cache or a watch may fail at will.
- Importer.ReplayAgrees: runs in which an import fails are not replayed, because such a render fails before anything is recorded. Error texts are not modelled; a cached error keeps the first caller's wording.
- FilteredWatch.KeyOnlyCommutes: resource versions, and so the bookmarks a filter may drop, do not reach the store and are not compared. Periodic resyncs are left out.
- Selection.GetIsList: the kind check and list options of the reader are left out; a reader is only asked for its own kind.
- CollectInput.ToolImitatesController: requests for deleted objects, which the controller renders with null, are no inputs of the tool and are not compared. Objects of the cluster have names.
- CollectInput.Collect: YAML encoding of the collected input, and reading it back, are left out.
- JsonnetNode.Convert: literals only; the Jsonnet evaluator is foreign code. Floating-point values of the cluster are taken to be doubles already.
- Bcrypt.CompareAcceptsGenerated: Blowfish is any deterministic cipher, so nothing is claimed about collisions of the real one. Random salts and cipher key-size errors, which cannot occur for these keys, are left out.
- Bcrypt.Base64Encode: the empty input is excluded, because the original panics on it.
- Webhooks.SortedIsUnique: the sort itself is the library's; any permutation ordered by the comparison is allowed.
- The Kubernetes client, API server, informers, REST configuration and HTTP transport, beyond what the parameters above stand for.
- The metrics collector that reads the controllers map, events, status updates and logging.
- "Ready means applied" is not a property of the code: skipped reconciles return nil and are recorded as Ready.
- Command line flags, TLS, admission HTTP handling, the JSON Patch native function and generated code.
