# Ctorium runtime: verified model

Ctorium is a dependency-injection container for C++26. Its runtime is a set of
small index, storage and concurrency structures behind `resolve`, `bind`,
`start` and `stop`. This project models those structures in Dafny and proves
what the runtime relies on: over every run of any number of threads where the
original is concurrent, and for every input where it is not.

`dafny verify dfyconfig.toml` checks everything.

## Components

- **Materialization of shared beans.** `WaitGraph`, `MaterializationTable`,
  `MaterializationProtocol` and `MaterializationTheorems` follow the claim,
  construct, store, notify protocol: the bounded cycle walk on real chunked
  slots, a step machine over any number of threads with its invariant, and the
  theorems over runs (deadlock freedom, at most once, exact refusals,
  destruction order); `MaterializationProgress` bounds the steps that can
  follow, `MaterializationObjects` says which objects are built and returned.
  `SequentialMaterializer` is the same protocol as a recursive method on one
  thread. `Digraph` holds dependency paths.
- **Lifecycle listeners.** `ListenerStore` has sorted insertion, the immutable
  view and the merging dispatch; `HazardReclamation` is the lock-free dispatch
  against reclamation of retired views.
- **Prototype beans.** `PrototypeStore` has slots, reference counts, handles
  and nested destruction; `TreiberFreelist` is the freelist between its loads
  and compare-exchanges.
- **Selection.** `Selection` is the specification (unique highest priority),
  `TypeIndex` the precomputed index, `Registry` default names, selection and
  bindings after start, `ConcurrentSelection` and `ConcurrentSelectionRuns`
  selections that run while bindings are made.
- **Instances.** `SingletonStore` and `SingletonLookup` (the lock-free lookup
  against growth), `SessionScope` (a scope with its session memory).
- **Types and contributions.** `TypeInterning`, `TypeIdCache`,
  `ContributionMerge` and `HookScan`.

A step machine has one step per critical section or per atomic access; `Run`
is any interleaving from `Init`. Classes carry the fields of the original and
a `Valid` invariant; fields the original does not have are ghost.

## Where the code and its own documentation differ

The model follows the code.

- `PrototypeStore.hpp` (lines 29-31) and `TreiberFreelist.hpp` (line 13) call the
  freelist ABA-safe. A pop writes the successor with generation zero, so the
  head word can repeat: `TreiberFreelist.HandedOutTwice` is a run, and
  `PopIsSafeIff` and `RunIsSafeIff` say exactly when a pop and a run are safe.
- `ListenerStore.hpp` (lines 196-197) promises registration order among equal
  priorities. Listeners deferred until start break it, in
  `DeferredRegistrationCounterexample`; `InsertedKeepsTokensIff` and
  `MergeIsListIff` give the exact conditions.
- `ListenerStore.hpp` (lines 44-58) lets callbacks use the store freely and
  frees a retired view only when no hazard cell names it. A thread has one cell
  for all its nested dispatches, so a dispatch inside a callback takes it away
  from the outer one, whose view can then be freed:
  `NestedDispatchCounterexample` and `NestedStoreCounterexample` are runs,
  `FreeUnderDispatchHasCause` and `CanBeFreedIff` say when it can happen.
- `RegistryScopedRuntimeImpl.hpp` (lines 205-207) says that handles destroyed
  during stop skip their release because the registry is marked stopped. The
  release tests another flag, which is still set, so nested releases do
  happen; `StopSweep` shows that no object is destroyed twice all the same.
- Handle assignment (`Bean.hpp`, lines 91-116) releases the target before it
  reads the source. `CopyAssign` and `MoveAssign` state exactly when the
  source still exists, and `AdvanceThroughHead` shows a list walk where it does
  not.
- `TypeIndex.hpp` (lines 73-81) treats the insertion of the context bean after
  the sort as covered by refreshing the single-candidate shortcut. The head of
  a key that already has candidates is not recomputed: `ContextKeyIsRightIff`.
  The next bind of any type sorts it, so a binding can change what an unrelated
  key gives: `BindEffect` says exactly when, `UnrelatedBindDisturbs` shows it.
- `TypeIndex.hpp` (lines 41-44) calls the index lock-free after start, while
  bindings write head and ambiguity flag one after the other and sort lists in
  place. `SelectionIsPossible` says what a selection can give meanwhile;
  `TornSelection` and `OvertakenSelection` are runs with a wrong result.
- `ScopedContext::restart` keeps memory for the next cycle before it knows that
  the scope can start. When it cannot, the memory outlives a later stop, until
  the scope is destroyed: `FailedRestartKeepsMemory`.
- `Registry.bindSingleton` looks for an in-flight bean of the same key and
  priority after it has looked for a descriptor of that key and priority. An
  in-flight bean has a descriptor, so the second check never decides.

## Model

| member | source | states |
|---|---|---|
| WaitGraph.WalkBoundSuffices | include/internal/detail/RegistryResolutionImpl.hpp:260-285 | Pigeonhole on distinct owners: if any wait path leads from an owner to a thread, one shorter than the in-flight list does, so the walk's step limit loses nothing. |
| WaitGraph.AddEdgeKeepsAcyclic | include/internal/detail/RegistryResolutionImpl.hpp:345-353 | A wait that the walk allows keeps the wait-for graph free of cycles. |
| WaitGraph.AddEdgeClosesCycle | include/internal/detail/RegistryResolutionImpl.hpp:345-351 | A wait whose owner leads back to the waiter would close a cycle. |
| WaitGraph.SinkEdgesKeepAcyclic | include/internal/detail/RegistryResolutionImpl.hpp:335-337 | A new claim only adds edges into the claiming thread, which waits for nothing, so claiming and dropping edges keep the graph acyclic. |
| MaterializationTable.Table.WaitCycleDetected | include/internal/detail/RegistryResolutionImpl.hpp:257-285 | The bounded walk over the chunked wait slots answers true if and only if a wait path of any length leads from the owner to the current thread, for every shape of the graph. |
| MaterializationTable.Table.EnsureWaitSlot | include/internal/detail/RegistryResolutionImpl.hpp:216-255 | Growing the slot table by whole chunks leaves every existing chunk in place and every existing slot unchanged; new slots are inactive. |
| MaterializationTable.Table.SetWaitSlot | include/internal/detail/RegistryResolutionImpl.hpp:353-355 | Writing a slot through chunk and offset changes the entry of that one thread only. |
| MaterializationTable.SwapRemoveOwners | include/internal/detail/RegistryResolutionImpl.hpp:533-543 | Erasing by overwriting with the last entry removes exactly one key and leaves the owner of every other key as it was. |
| MaterializationTable.Table.ClaimPass | include/internal/detail/RegistryResolutionImpl.hpp:319-356 | One pass of the claim loop: found, claimed, refused on the same thread, refused across threads (exactly when a wait path leads back), or waiting; with the new list, stack and slots. |
| MaterializationProtocol.StepKeeps | include/internal/detail/RegistryResolutionImpl.hpp:287-357 | Every step of any number of threads (claim, wait, wake, throw, store with erase, notify, return) keeps the invariant: unique unstored in-flight keys owned by the thread that builds them, acyclic waits, a due notification for every orphaned waiter, topological insertion order. |
| MaterializationTheorems.DeadlockFree | include/internal/detail/RegistryResolutionImpl.hpp:531-567 | Whenever a thread waits, some thread can take a step that is due. |
| MaterializationProgress.SettlingStepDecreases | include/internal/detail/RegistryResolutionImpl.hpp:319-357 | Every step of every thread except new application requests, bindings and spurious wake-ups lowers one natural number, whatever throws. |
| MaterializationProgress.SettledIffIdle | include/internal/detail/RegistryResolutionImpl.hpp:531-567 | No such step is left if and only if no request is under way in any thread. |
| MaterializationProgress.EveryRequestEnds | include/internal/detail/RegistryResolutionImpl.hpp:319-357 | No livelock: under any schedule the steps that follow a reachable state are bounded, and they run out exactly when every request has returned or thrown. |
| MaterializationProgress.CanSettle | include/internal/detail/RegistryResolutionImpl.hpp:519-567 | From every state that satisfies the invariant some run of such steps leaves all threads idle. |
| MaterializationTheorems.RefusalIsExact | include/internal/detail/RegistryResolutionImpl.hpp:340-351 | Waiting is refused if and only if the new wait edge would make the wait-for graph cyclic. |
| MaterializationTheorems.RefusalMeansCycle | include/internal/detail/RegistryResolutionImpl.hpp:306-351 | A cycle error, on one thread or across threads, means that the requested bean depends on itself, or that the thread already builds the same descriptor for another scope. |
| MaterializationTheorems.AcyclicRequestRefusedIff | include/internal/detail/RegistryResolutionImpl.hpp:306-351 | A request, not yet stored, for a bean that does not depend on itself is refused if and only if the thread already builds the same descriptor for another scope. |
| MaterializationTheorems.CrossScopeRefusal | include/internal/detail/RegistryResolutionImpl.hpp:306-313 | Such a refusal occurs: a reachable state over a dependency graph without any cycle, and a request that is refused. |
| MaterializationTheorems.StoredForGood | include/internal/detail/RegistryResolutionImpl.hpp:551-566 | Over any run the insertion order only grows and a stored instance is never replaced. |
| MaterializationTheorems.StoredOnce | include/internal/detail/RegistryResolutionImpl.hpp:551-566 | In every state of every run each stored key occurs once in the insertion order, and exactly the stored keys occur. |
| MaterializationTheorems.OneObjectPerKey | include/internal/detail/RegistryScopedRuntimeImpl.hpp:90-160 | Whatever any two threads were given for a shared key at any two moments of a run, as the answer to a request or as a constructor argument, is the same object, and it is the stored one. |
| MaterializationObjects.DistinctObjects | include/internal/detail/RegistryResolutionImpl.hpp:505-568 | At no moment of a run is one object stored under two keys. |
| MaterializationObjects.StoredIsNew | include/internal/detail/RegistryResolutionImpl.hpp:505-568 | The object that a step stores was at no earlier moment of the run stored, injected, announced or returned. |
| MaterializationObjects.PrototypeIsNew | include/internal/detail/RegistryResolutionImpl.hpp:602-645 | A finished prototype is handed to the constructor that asked for it, as its next argument, or to the application as one more answer, and the object was in use at no earlier moment of the run. |
| MaterializationObjects.AnsweredOnce | include/internal/detail/RegistryResolutionImpl.hpp:484-621 | The step that ends a request of the application gives exactly one answer, to the thread that asked, under the key it asked for, and for a shared bean the stored instance; no other step answers anything. |
| MaterializationObjects.FailureHasCause | include/internal/detail/RegistryResolutionImpl.hpp:287-357 | A request fails only by a throwing constructor or hook, or by a refusal for a bean that depends on itself or that the thread builds for another scope. |
| MaterializationTheorems.InFlightIsExclusive | include/internal/detail/RegistryResolutionImpl.hpp:323-338 | An in-flight key is unstored, listed once, and on the stack of exactly the thread that owns it. |
| MaterializationTheorems.FailureAllowsRetry | include/internal/detail/RegistryResolutionImpl.hpp:519-548 | After a throwing constructor the next thread that asks gets the claim. |
| MaterializationTheorems.DependenciesPrecede | include/internal/detail/RegistryResolutionImpl.hpp:505-567 | In every reachable state whatever a stored bean depends on, directly or through prototypes, precedes it in insertion order. |
| MaterializationTheorems.SweepOrder | include/internal/detail/RegistryScopedRuntimeImpl.hpp:213-220 | The stop-time sweep of any run, beans bound after start included, visits every stored bean once, dependents before what they depend on, and the context bean last. |
| SequentialMaterializer.Materializer.Materialize | include/internal/detail/RegistryResolutionImpl.hpp:484-621 | The recursion over an arbitrary graph of singletons, prototypes and aliases terminates; on both exits stack and in-flight list are restored and the store has only grown, by beans the requested one needs. On success it returns the stored instance, for an alias that of its primary, and for a prototype an object in no store and returned by no earlier call. |
| SequentialMaterializer.Materializer.Resolve | include/internal/detail/RegistryResolutionImpl.hpp:484-621 | An outermost call succeeds if and only if neither a dependency cycle nor a throwing constructor is reachable; without throwing constructors it raises the cycle error exactly when a cycle is reachable. A singleton gives the stored instance, an alias of one the instance of its primary, and a prototype or an alias of one a new object; different stored beans are different objects. |
| SequentialMaterializer.BuiltIsClean | include/internal/detail/RegistryResolutionImpl.hpp:551-566 | A finished bean has neither a cycle nor a throwing constructor below it. |
| ListenerStore.ListenerStore.Place | include/internal/detail/ListenerStore.hpp:136-143 | Appending, binary search and rotation put the entry behind all entries of at least its priority: the phase holds one entry more, is still sorted, and nothing else changes. |
| ListenerStore.InsertedKeepsTokensIff | include/internal/detail/ListenerStore.hpp:139-142 | Insertion keeps registration order among equal priorities if and only if the inserted token is newer than all tokens of its priority. |
| ListenerStore.ListenerStore.RebuildView | include/internal/detail/ListenerStore.hpp:357-381 | The rebuilt view is the master list split by type filter, order preserved. |
| ListenerStore.MergeIsListIff | include/internal/detail/ListenerStore.hpp:526-545 | Merging the two sublists of a priority-sorted list gives the list back if and only if tokens agree with its order wherever global and typed entries alternate at one priority. |
| ListenerStore.CallsAreMatching | include/internal/detail/ListenerStore.hpp:512-558 | For every listener state dispatch calls each listener whose type and scope match exactly once, in non-increasing priority. |
| ListenerStore.CallsFollowRegistration | include/internal/detail/ListenerStore.hpp:512-558 | When listeners were inserted in token order, dispatch is the master list with the non-matching entries left out. |
| ListenerStore.DeferredInsertionCounterexample | include/internal/detail/ListenerStore.hpp:159-180 | A deferred typed entry with an early token makes the merged order differ from the master list. |
| ListenerStore.AgnosticCallsFollowList | include/internal/detail/ContextLifecycleImpl.hpp:127-142 | Entries without a type filter, the only ones the registry itself inserts, are called in list order. |
| ListenerStore.DeferredRegistrationCounterexample | include/internal/detail/ContextLifecycleImpl.hpp:427-441 | A listener deferred until start is called after one of equal priority that was registered later. |
| ListenerStore.DispatchFromView | include/internal/detail/ListenerStore.hpp:512-558 | The walk with two indices invokes exactly the merge of the two lists restricted to the emitter's scope. |
| ListenerStore.ListenerStore.Dispatch | include/internal/detail/ListenerStore.hpp:211-255 | Dispatch on a published store calls what the phase's master list prescribes: each listener as often as it is listed if its type filter and its scope match, and else not at all, in non-increasing priority. |
| ListenerStore.ListenerStore.AddListener | include/internal/detail/ListenerStore.hpp:125-148 | A new listener takes the next token, is inserted, and the published view is up to date afterwards. |
| ListenerStore.ListenerStore.RemoveByToken | include/internal/detail/ListenerStore.hpp:294-308 | Removes exactly one entry with the token if there is one, and nothing otherwise. |
| HazardReclamation.StepKeeps | include/internal/detail/ListenerStore.hpp:231-254 | Every step of a lock-free dispatch (slot, count, load, store, validate, withdraw, finish), nested in others of its thread or not, keeps the reclamation invariant. |
| HazardReclamation.MutatorKeeps | include/internal/detail/ListenerStore.hpp:357-383 | Every step of add, remove, clear, scan and reclaim keeps the reclamation invariant. |
| HazardReclamation.ProtectedViewsAreAllocated | include/internal/detail/ListenerStore.hpp:469-489 | At every moment of every run with dispatches nested at will, the view of each dispatch whose thread's cell has named it throughout is allocated, and the cell of every dispatching thread is one the reclaimer scans. |
| HazardReclamation.ExposedIff | include/internal/detail/ListenerStore.hpp:231-254 | A dispatch has lost its cell at some time if and only if, since it began, a dispatch nested in it stored another view there or emptied it. |
| HazardReclamation.FreeUnderDispatchHasCause | include/internal/detail/ListenerStore.hpp:480-489 | A step of any run frees a view under an open dispatch only if, since that dispatch began, a dispatch nested in it stored another view in the cell or emptied it. |
| HazardReclamation.CanBeFreedIff | include/internal/detail/ListenerStore.hpp:469-489 | With the dispatching threads at rest, the holders of the mutex can free an allocated view if and only if no scanned cell names it, whoever iterates it. |
| HazardReclamation.FinishedDispatchLosesOuterView | include/internal/detail/ListenerStore.hpp:248-254 | After a nested dispatch has ended, an outer dispatch's view that no other thread's cell names can be freed while the outer dispatch is open. |
| HazardReclamation.ReclaimKeepsTheHeld | include/internal/detail/ListenerStore.hpp:480-489 | A reclamation over all retired views ends with exactly those still retired that some scanned cell names. |
| HazardReclamation.QuietReclaimFreesAll | include/internal/detail/ListenerStore.hpp:480-489 | When no thread dispatches, a reclamation frees every retired view. |
| HazardReclamation.IteratedViewsAreAllocated | include/internal/detail/ListenerStore.hpp:469-489 | Over any run in which no dispatch begins inside another of its thread, every view under iteration is allocated. |
| HazardReclamation.FreedViewIsNotIterated | include/internal/detail/ListenerStore.hpp:480-489 | Over such a run, a view that is freed is one no thread iterates. |
| HazardReclamation.NestedDispatchCounterexample | include/internal/detail/ListenerStore.hpp:248-254 | From a fresh store: a dispatch inside a callback ends and empties the shared cell, a listener is added, and the outer dispatch iterates a freed view. |
| HazardReclamation.NestedStoreCounterexample | include/internal/detail/ListenerStore.hpp:231-238 | From a fresh store: a callback adds a listener, and storing the new view for a nested dispatch is enough for the next mutation to free the outer one's. |
| TreiberFreelist.SlotsAreExclusive | include/internal/detail/TreiberFreelist.hpp:20-67 | Over any run in which no two pops are in flight together, with any number of pushes, no slot is handed out twice and none is lost. |
| TreiberFreelist.PopIsSafeIff | include/internal/detail/TreiberFreelist.hpp:27-34 | A pop whose compare-exchange succeeds keeps every slot listed or handed out once if and only if the successor it read is still the successor. |
| TreiberFreelist.RunIsSafeIff | include/internal/detail/TreiberFreelist.hpp:20-67 | Over any run, with any number of pops in flight, no slot is ever lost or handed out twice if and only if every successful pop read a successor that was still current. |
| TreiberFreelist.HandedOutTwice | include/internal/detail/TreiberFreelist.hpp:30-33 | A concrete run from a fresh store, with two pops in flight and a new generation in every push, hands one slot out twice. |
| PrototypeStore.PrototypeStore.Allocate | include/internal/detail/PrototypeStore.hpp:81-124 | A slot for a bean under construction: the head of the freelist, else a new one unless the slot limit is reached. |
| PrototypeStore.PrototypeStore.Activate | include/internal/detail/PrototypeStore.hpp:127-130 | A reserved slot becomes live with one handle. |
| PrototypeStore.PrototypeStore.Reclaim | include/internal/detail/PrototypeStore.hpp:136-148 | After a throwing constructor the reserved slot is free again, under its old generation. |
| PrototypeStore.PrototypeStore.ReleaseAcquire | include/internal/detail/PrototypeStore.hpp:181-189 | Dropping a handle reports the last reference exactly when no other handle names the slot. |
| PrototypeStore.PrototypeStore.TakeSlotMetaForDestruction | include/internal/detail/PrototypeStore.hpp:236-246 | Hands out the slot's object at most once: what it returns was never handed out before. |
| PrototypeStore.PrototypeStore.ReclaimSlot | include/internal/detail/PrototypeStore.hpp:214-227 | Only a slot without handles and without object becomes free, under a new generation. |
| PrototypeStore.PrototypeStore.ReleaseIfPrototype | include/internal/detail/HandleInlineImpl.hpp:54-67 | Releasing a handle, with all nested destructions, terminates, removes exactly the handles inside destroyed objects, and touches nothing that is supported without it. |
| PrototypeStore.PrototypeStore.ReleasePrototypeLast | include/internal/detail/RegistryRuntimeCoreImpl.hpp:76-84 | The last release destroys the object unless the sweep did, and then reclaims the slot. |
| PrototypeStore.PrototypeStore.Drop | include/internal/detail/RegistryRuntimeCoreImpl.hpp:76-84 | A release destroys exactly the objects that no chain of support keeps: afterwards objects and handles are those of the greatest self-supporting set. |
| PrototypeStore.PrototypeStore.DestroyHandle | include/api/ctr/Bean.hpp:118-121 | The handle's destructor has that effect, and none on an empty handle. |
| PrototypeStore.PrototypeStore.CopyConstruct | include/api/ctr/Bean.hpp:74-80 | A copy, like a successful cast, names and counts the same slot. |
| PrototypeStore.PrototypeStore.MoveConstruct | include/api/ctr/Bean.hpp:82-89 | A move transfers the name and leaves every count as it is. |
| PrototypeStore.PrototypeStore.CopyAssign | include/api/ctr/Bean.hpp:91-102 | The target releases first; source and target are intact afterwards if and only if the objects that contain them are supported without the target's handle, and then the result is a copy. |
| PrototypeStore.PrototypeStore.MoveAssign | include/api/ctr/Bean.hpp:104-116 | The same exact condition for move assignment, and the moved result. |
| PrototypeStore.AdvanceThroughHead | include/api/ctr/Bean.hpp:104-116 | `head = head->next` through the only handle of the head object reads a handle inside a destroyed object. |
| PrototypeStore.SoleHandleLost | include/api/ctr/Bean.hpp:91-116 | An object with a single handle never survives the loss of that handle. |
| PrototypeStore.PrototypeStore.StopSweep | include/internal/detail/RegistryScopedRuntimeImpl.hpp:222-231 | The stop-time sweep hands out each object once and leaves exactly the handles outside prototype objects; an object goes before one of a higher slot only if no such handle names it, so that without handles inside objects the order is that of descending slots. |
| PrototypeStore.PrototypeStore.MarkRegistryDeadAndReleaseHold | include/internal/detail/PrototypeStore.hpp:69-72 | With the registry gone the store is deleted at once if and only if no handle is left. |
| PrototypeStore.DeletedIffUnused | include/internal/detail/PrototypeStore.hpp:362-377 | The live-slot counter is zero exactly when no handle exists. |
| PrototypeStore.FreeSlotIsUnnamed | include/internal/detail/PrototypeStore.hpp:214-227 | A slot that can be handed out again is named by no handle and holds no object. |
| PrototypeStore.AddHandle | include/internal/detail/PrototypeStore.hpp:151-155 | Counting up keeps every reference count equal to the number of handles naming the slot. |
| PrototypeStore.SurvivesIffReachable | include/internal/detail/HandleInlineImpl.hpp:54-67 | With acyclic ownership the survivors are exactly the objects that a chain of handles from outside reaches. |
| PrototypeStore.HeldIffReachable | include/internal/detail/PrototypeStore.hpp:214-246 | With acyclic ownership the objects of the store are exactly those reachable from outside: none is leaked, none is destroyed early. |
| Selection.SpecMeans | include/internal/detail/TypeIndex.hpp:171-176 | No candidate, the candidate of unique highest priority, or two distinct candidates of highest priority: exactly one holds and it is the selection. |
| Selection.SortedListDecides | include/internal/detail/TypeIndex.hpp:134-157 | Whatever order the unstable sort leaves ties in, the first two entries of a sorted list decide the selection. |
| Selection.OneMore | include/internal/detail/BindReflectiveImpl.hpp:152-155 | What one more descriptor changes, for its own key and for all others. |
| TypeIndex.SortByPriority | include/internal/detail/TypeIndex.hpp:137-140 | Sorting permutes a candidate list into non-increasing priority, ties in any order. |
| TypeIndex.TypeIndex.InsertCandidate | include/internal/detail/TypeIndex.hpp:61-71 | A candidate is buffered before the first sort and appended afterwards; no other key is affected. |
| TypeIndex.TypeIndex.SortAllCandidates | include/internal/detail/TypeIndex.hpp:108-165 | Every key keeps its candidates, and head, ambiguity bit and single-unnamed shortcut of every key say what its sorted list says. |
| TypeIndex.TypeIndex.UpdateSingleUnnamed | include/internal/detail/TypeIndex.hpp:82-91 | Refreshes the shortcut of one type to name its only unnamed candidate, if there is exactly one. |
| Registry.Registry.Select | include/internal/detail/RegistryResolutionImpl.hpp:50-107 | A named request selects under its name; an unnamed one under the default of the scope, else under the default of the root, else without a name. In every state after start and any binds, what is selected through shortcut, precomputed head or fallback list is what the specification says at that key; only the key of the context bean lags until the next sort. |
| Registry.Registry.Start | include/internal/detail/RegistryRuntimeCoreImpl.hpp:90-128 | Start sorts all contributed candidates and appends the context bean, whose key is unsorted exactly when it has other candidates. |
| Registry.ContextKeyIsRightIff | include/internal/detail/RegistryRuntimeCoreImpl.hpp:118-120 | At the context bean's key with other candidates the selection meets the specification if and only if one of them has priority above zero or two share the top priority zero. |
| Registry.ContextKeyCounterexample | include/internal/detail/RegistryRuntimeCoreImpl.hpp:118-120 | A candidate of negative priority is selected there although the context bean should win. |
| Registry.Registry.SetDefault | include/internal/detail/Registry.hpp:657-661 | Setting and clearing defaults keeps the flag a safe over-approximation. |
| Registry.Registry.CandidateKeyExists | include/internal/detail/Registry.hpp:1280-1295 | Finds a descriptor of the same key and priority exactly when there is one. |
| Registry.Registry.BindSingleton | include/internal/detail/BindReflectiveImpl.hpp:69-155 | A bind is refused exactly for the context type and when key and priority are taken. Otherwise the descriptor is added, every entry is sorted again, and at every key what select returns is compared before and after: another key changes if and only if it is the context bean's not yet sorted key and no other candidate outranks the bean, and a resolvable key keeps its winner, or gets the new binding under the bound key, except exactly where the context bean takes over. |
| Registry.BindNeverCreatesAmbiguity | include/internal/detail/BindReflectiveImpl.hpp:91-103 | In the specification of selection, a descriptor whose key and priority are not taken leaves every resolvable key resolvable and changes the winner only at its own key, to itself, and from a strictly lower priority. What selection returns is `BindEffect`. |
| Registry.BindEffect | include/internal/detail/BindReflectiveImpl.hpp:130-155 | What select returns before and after a bind, at every key: the exact condition for a change under another key and for breaking the promise that a resolvable key stays resolvable. |
| Registry.UnrelatedBindDisturbs | include/internal/detail/RegistryRuntimeCoreImpl.hpp:118-120 | A started registry with a bean of priority zero or less exposed as the context type: binding an unrelated singleton turns what that key gives into the context bean, or into an ambiguity. |
| Registry.UnrelatedSessionDisturbs | include/internal/detail/BindReflectiveImpl.hpp:282-315 | Binding an unrelated session bean does the same. |
| Registry.Registry.SessionBinding | include/internal/detail/BindReflectiveImpl.hpp:214-315 | Refused exactly for the context type. A session binding of the same key and priority is reused; otherwise a descriptor is added without any check for other candidates, and at every key what select returns is compared before and after, with the same exact conditions. |
| Registry.SessionBindingAmbiguousIff | include/internal/detail/BindReflectiveImpl.hpp:282-315 | In the specification of selection, a new session binding makes its resolvable key ambiguous if and only if the winner so far has its priority. |
| Registry.SessionBindingCounterexample | include/internal/detail/BindReflectiveImpl.hpp:282-315 | A singleton and a session binding of one key and priority: resolvable before, ambiguous after. |
| ConcurrentSelectionRuns.StepKeeps | include/internal/detail/TypeIndex.hpp:61-164 | Every read of a selection and every write of a binding (append, insert, clear shortcuts, in-place sort of each list, head, flag) keeps the invariant of the index and of all selections under way. |
| ConcurrentSelectionRuns.SelectionIsPossible | include/internal/detail/RegistryResolutionImpl.hpp:50-107 | Over every run of any number of selections without a lock and bindings after start, a selection gives what the specification says at some moment since it began, except one of the tied candidates of a key that was ambiguous at one moment and not at another, or at a key that had no candidate and has got two or more since. |
| ConcurrentSelectionRuns.UndisturbedIsExact | include/internal/detail/RegistryResolutionImpl.hpp:50-107 | If neither occurs during the call, the selection takes effect at a single moment. |
| ConcurrentSelectionRuns.TornSelection | include/internal/detail/TypeIndex.hpp:159-161 | The first exception occurs: from a started registry, a selection reads the head before and the flag after a binding and gives a bean that is right neither before nor after. |
| ConcurrentSelectionRuns.OvertakenSelection | include/internal/detail/RegistryResolutionImpl.hpp:82-95 | The second exception occurs: a selection reads the list while the sort of a second binding holds one bean twice, and reports an ambiguity that never was. |
| SingletonStore.SingletonStore.Store | include/internal/detail/SingletonStore.hpp:53-66 | A store adds one entry to the map that both arrays refine, mirrored into the snapshot when the two arrays differ. |
| SingletonStore.SingletonStore.GrowAndStore | include/internal/detail/SingletonStore.hpp:76-95 | Growing copies, keeps every old array, and leaves the snapshot alone; the map gains one entry. |
| SingletonStore.SingletonStore.Find | include/internal/detail/SingletonStore.hpp:119-131 | A lookup, through the snapshot or the live array, is a lookup in the map. |
| SingletonStore.SingletonStore.DestroyAll | include/internal/detail/RegistryScopedRuntimeImpl.hpp:213-220 | The sweep destroys every stored instance once, in reverse insertion order, and empties the store. |
| SingletonLookup.LookupReturnsHeldValue | include/internal/detail/SingletonStore.hpp:119-131 | With size, base and slot loads of any number of readers interleaved with growth, a lookup returns what the map held at its start, or, if that was nothing, what it holds at its end. |
| SingletonLookup.IndexingInBounds | include/internal/detail/SingletonStore.hpp:126-130 | Every slot a lookup reads lies inside the array it loaded. |
| SingletonLookup.ArraysAgree | include/internal/detail/SingletonStore.hpp:53-66 | While no store is under way the snapshot and the live array are one map. |
| SingletonLookup.StoreIsVisible | include/internal/detail/SingletonStore.hpp:59-65 | The step that ends a store makes the instance what lookups of the id find, and nothing was found before. |
| SessionScope.StoredOk | include/internal/detail/SessionStore.hpp:64-69 | Storing a replacement and then freeing what its descriptor had retired keeps the memory account balanced. |
| SessionScope.ReplacementElsewhere | include/internal/detail/SessionStore.hpp:64-69 | The memory a destroyed instance left retired is not the memory of its replacement, and is freed once the replacement is stored. |
| SessionScope.SweptOk | include/internal/detail/RegistryScopedRuntimeImpl.hpp:310-333 | Destroying one live instance, its memory retired or freed, keeps the account balanced and at most one retired block per descriptor. |
| SessionScope.SettledWhenEmpty | include/internal/detail/RegistryScopedRuntimeImpl.hpp:335-338 | With nothing live or retired, everything that entered and is not queued was destroyed once and freed once. |
| SessionScope.SessionScope.ReleaseRetired | include/internal/detail/SessionStore.hpp:167-177 | Frees exactly the retired blocks of one descriptor, each by overwriting it with the last block; the others stay. |
| SessionScope.SessionScope.Materialize | include/internal/detail/RegistryScopedRuntimeImpl.hpp:69-160 | Returns the live instance, or builds a new one, which is then the last live one at its address and whose descriptor's retired blocks alone are freed, or fails, with no change, exactly as stated for a stopped scope, a scope in teardown, a bound bean without instance and a throwing constructor. |
| SessionScope.SessionScope.BindSession | include/internal/detail/BindReflectiveImpl.hpp:319-346 | Refused exactly when an instance is queued or live; otherwise stored in a running scope and queued in any other. |
| SessionScope.SessionScope.Start | include/internal/detail/ContextLifecycleImpl.hpp:216-251 | Fails exactly when the registry is not started or the scope is in teardown; a scope started from rest has exactly the queued instances live, in order, and of the retired blocks exactly those of queued descriptors are freed. |
| SessionScope.SessionScope.StopScope | include/internal/detail/RegistryScopedRuntimeImpl.hpp:250-339 | Destroys the live instances in reverse order; without deferral nothing stays retired. |
| SessionScope.SessionScope.Stop | include/internal/detail/ContextLifecycleImpl.hpp:253-257 | Everything that entered and is not queued has been destroyed once and freed once, after stopping a running scope or in a stopped one whose last restart did not fail; a restart refused after its sweep, because the registry is not started, leaves memory that a later stop does not free, exactly then. |
| SessionScope.SessionScope.Restart | include/internal/detail/SessionStore.hpp:128-137 | Succeeds exactly when start does; a running scope's instances are destroyed in reverse order either way. If the list of kept blocks can grow, a restart of a running scope frees nothing: all of them are retired, in use at their addresses. |
| SessionScope.RestartKeepsMemory | include/internal/detail/SessionStore.hpp:128-137 | Start, materialize, restart: the instance is destroyed and retired, and no memory handed out afterwards is at its address. |
| SessionScope.StoredKeepsOthers | include/internal/detail/SessionStore.hpp:64-69 | Storing an instance leaves the retired blocks of other descriptors retired, at their addresses. |
| SessionScope.FailedRestartKeepsMemory | include/internal/detail/ContextLifecycleImpl.hpp:253-267 | Start, materialize, rollback of the registry, restart, stop: the instance is destroyed and its memory is still allocated. |
| SessionScope.SessionScope.Dispose | include/internal/detail/ContextLifecycleImpl.hpp:203-214 | The destructor of a stopped scope destroys and frees what is queued and frees what is retired: then everything is destroyed once and freed once. |
| HookScan.Scan.ScanBaseHooks | include/internal/detail/DescriptorThunkGen.hpp:532-561 | The recursive walk terminates and extends the scanned types, topologically and without duplicates, by types the current one derives from, its own bases included. |
| HookScan.Scan.ScanMembersOfType | include/internal/detail/DescriptorThunkGen.hpp:492-529 | Collects exactly the annotated members of one type in order, counts its compatible constructors and takes the last. |
| HookScan.ListedAsAnnotated | include/internal/detail/DescriptorThunkGen.hpp:498-529 | Each hook list holds, in declaration order, the ids of exactly the members that carry that annotation and are neither types nor special member functions nor, in the bean type, constructors; the counted constructors are those with bean parameters only. |
| HookScan.ScanMembers | include/internal/detail/DescriptorThunkGen.hpp:565-592 | The hooks are those of exactly the types the bean type is or publicly derives from, each type once and bases first; a constructor conflict is reported exactly for two or more compatible constructors. |
| HookScan.HooksTile | include/internal/detail/DescriptorThunkGen.hpp:547-592 | A collected list is what each visited type contributes, type by type in the order of the walk, and nothing else. |
| HookScan.BaseHooksFirst | include/internal/detail/DescriptorThunkGen.hpp:547-556 | All hooks of a base stand before all hooks of every type deriving from it. |
| HookScan.PreDestroyThunk | include/internal/detail/DescriptorThunkGen.hpp:424-453 | preDestroy hooks run in exactly the reverse of the collected order. |
| TypeInterning.TypeInterning.InternByName | include/internal/detail/TypeInterning.hpp:64-103 | A known name keeps its id and a new one gets the next dense id, before freeze and after it; after freeze the start-up tables do not change. |
| TypeInterning.TypeInterning.LookupByTypeIndex | include/internal/detail/TypeInterning.hpp:125-132 | The two-level lookup is the first id interned with that type_index. |
| TypeInterning.TypeInterning.NameOf | include/internal/detail/TypeInterning.hpp:138-148 | The name of an id, through either table, is interned under that id. |
| TypeInterning.LookupFindsNameIff | include/internal/detail/TypeInterning.hpp:64-103 | A type_index finds the id of a name if and only if the name was interned with that index and the index not before with another name. |
| TypeInterning.IdsAreStable | include/internal/detail/TypeInterning.hpp:94-103 | Later interning changes no id. |
| TypeIdCache.SlotsAreDistinct | include/internal/detail/Registry.hpp:1071-1100 | However the claims of all threads interleave, distinct types never share a cache slot. |
| TypeIdCache.TypeIdForIsLookup | include/internal/detail/Registry.hpp:808-823 | What typeIdFor returns, in any of several registries, cached or not, is what the registry's interning table says. |
| TypeIdCache.StepKeeps | include/internal/detail/Registry.hpp:1103-1174 | Every step of drawing and publishing slots, cached reads and cache misses, over chunks and offsets, keeps the caches of all registries in agreement with their tables. |
| ContributionMerge.Merge.MergeSpans | include/internal/detail/Registry.hpp:303-377 | The merge fails with a collision exactly when two contributions of one identity differ in exposed type, bean name or lifetime, and otherwise its result is a function of the list of first occurrences alone, with links and errors as `ResultMeans` says. |
| ContributionMerge.FirstsAreFirst | include/internal/detail/Registry.hpp:303-377 | What the merge keeps are the first contributions of their identities, in contribution order. |
| ContributionMerge.ResultMeans | include/internal/detail/Registry.hpp:421-446 | Start fails for a missing factory exactly when some factory identity has no contribution, and for a missing primary exactly when, all factories being there, an alias target has none; otherwise each factory link is the position of the contribution it names, a primary is its own descriptor, and an alias the position of its target. |
| ContributionMerge.MergeTwice | include/internal/detail/Registry.hpp:303-377 | Two merges whose spans have the same first occurrences have the same outcome, so repeating contributions changes nothing. |
| ContributionMerge.AssignSessionSlots | include/internal/detail/Registry.hpp:532-540 | Session slots are a bijection from the session descriptors onto the first `count` numbers, ascending in table order. |

## Left out

- Compile-time reflection, identity hashing and generated thunks: dependency lists, hooks and annotations are data.
- C++ object layout, base adjustment, allocation failure and exceptions as control flow: results are datatypes, and an allocator returns no address in use. A failed push of a retired block is kept, as a choice of the sweep.
- Weak memory orders: every atomic access is one sequentially consistent step; fences have no step of their own.
- The 32-bit wrap-around of descriptor ids, tokens, generations and reference counts: numbers are unbounded, except for the end of the cache slot counter.
- Chunk arrays of prototype slots: the slots are sequences; chunked growth is modelled for wait slots and the type id cache.
- Locking inside the growth of the wait slot table: growth is one step under the registry lock.
- Dependencies injected by lifecycle hooks and what listeners do: hooks and listeners of a stored bean are one step that may throw.
- MaterializationTheorems.RefusalMeansCycle: is one direction for beans that depend on themselves, because whether such a request is refused or blocks another thread first depends on the schedule; for other beans `AcyclicRequestRefusedIff` is exact.
- SequentialMaterializer.Materializer.Resolve: covers singletons, prototypes and aliases of one registry without scopes; session and thread-local beans are left to the step machine or not modelled.
- The order in which the parameters of one constructor are resolved: C++ leaves it open, the model goes from left to right, and no contract depends on it. Which objects a constructor receives is stated for the step machine only.
- Thread-local instances and their destruction at stop: claiming a singleton registers the thread without registering its store, which is outside this model.
- Several registries nested on one thread's construction stack: the stack compares bare descriptor ids; the scope part of this is `AcyclicRequestRefusedIff`.
- TreiberFreelist.SlotsAreExclusive: assumes at most one pop in flight; `HandedOutTwice` shows that the code does not meet it without, and `RunIsSafeIff` is exact for all runs. The other structures take freelist push and pop as single steps.
- PrototypeStore.PrototypeStore.Allocate: the object is constructed after its slot is allocated; the generated path that constructs first is not modelled, and neither are throws after activation.
- PrototypeStore.PrototypeStore.ReleaseIfPrototype: is sequential; last-handle releases racing on several threads are single steps, and user code run by destruction hooks is not modelled.
- PrototypeStore.PrototypeStore.MarkRegistryDeadAndReleaseHold: requires the sweep before it, as the registry destructor runs it.
- Type compatibility of casts and pointer adjustment: a successful cast is a copy.
- HazardReclamation.IteratedViewsAreAllocated: assumes that no dispatch begins inside another of its thread, because the code does not meet it otherwise; `FreeUnderDispatchHasCause` covers all runs. Recycling of hazard slots is one step.
- Removal of a listener before its deferred insertion.
- The binary-searched list of ambiguous names beside the ambiguity bits: resolve does not read it. Pending candidates are one list over all types.
- ConcurrentSelectionRuns.UndisturbedIsExact: is one direction, because a disturbed selection may still be right. Reads and writes are single atomic steps, and what a reader sees of a list or table whose storage moves while it grows is not modelled.
- Graph validation at start, retry after a failed start, and instances bound before start: their descriptors are contributions like others.
- SessionScope.SessionScope.Materialize: operations on one scope are sequential, what hooks and listeners run by the sweep do is not modelled, and neither is a scope that is destroyed while it runs.
- SessionStore's array publication: it is the protocol of `SingletonLookup`.
- SingletonLookup.LookupReturnsHeldValue: covers the time from start to stop, when no array is freed.
- Failure to record a cache chunk after allocating it: like a failed allocation, nothing is cached.
- User data, metadata views, scope-name tables, bit packing of handles.
