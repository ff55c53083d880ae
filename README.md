# Connect coordinator: lanes, lifecycle and commit logging

A Dafny model of three sequential decision cores of the Swift persistence
layer `Connect`:

- **`GenericConnect`** (module `Connect`, with the pure registration decision
  in `EntityRegistry` and the queue values in `ActionQueues`). The data model's
  entities are registered: an entity whose declared uniqueness key resolves,
  or that declares no key but has uniqueness constraints, becomes *managed* and
  gets its own serial lane `connect.queue.entity.<lowercased name>`, created
  suspended. `start`/`stop` form a two-state machine with no-op guards.
  The `suspended` setter propagates a change from the generic queue to every
  lane. Actions are queued on the generic queue or on the lane stored under
  the name of the action's managed-object type; a name without a lane is
  rejected with `unmanagedEntity`. The class keeps
  the fields the source updates in place (`started`, whether a write-ahead log
  is present, the generic queue, the lane dictionary, and the entity
  descriptions with their `managed` flag and key).
- **`PersistentStoreCoordinator.execute`** (module `StoreCoordination`). Save
  and batch-update requests on a coordinator with a write-ahead log obtain
  permanent IDs, log a transaction, and then reach the store. If the store
  fails, the transaction is removed and the error is rethrown. Everything else
  goes straight to the store. The log is a set of transaction ids with fresh-id
  allocation. What the context, the log and the store answer are parameters.
  The order of calls is kept in a ghost trace.
- **`NotificationService`** (module `Notifications`). `executing` posts
  `ActionDidStartExecuting`, `finished` posts `ActionDidFinishExecuting`, and
  every other state posts nothing. The posted object is the service's `source`,
  which `GenericConnect` sets to itself once it is fully initialised. The posts
  are kept in a ghost sequence.

A logged transaction stays in the log when the store succeeds and is removed
when the store fails (Sources/Connect/PersistentStoreCoordinator.swift:113-120).

Outcomes of the persistence runtime are parameters of the operations: store
loading and unloading, write-ahead-log creation, obtaining permanent IDs,
logging a transaction, and the store's own answer. Each may be a success or a
failure.

Files: `outcomes.dfy` (Option, Result, Outcome), `action_queues.dfy`,
`entity_registry.dfy`, `generic_connect.dfy`, `persistent_store_coordinator.dfy`,
`notification_service.dfy`.

## Model

| member | source | states |
|---|---|---|
| ActionQueues.Lowercased | Sources/Connect/GenericConnect.swift:685 | the lowercased name has the same length, and each character is its ASCII lower-case counterpart |
| EntityRegistry.FirstShortest | Sources/Connect/GenericConnect.swift:659-665 | the constraint kept by the scan with a strict `<` has minimum length, and every earlier constraint is strictly longer (ties go to the earliest) |
| EntityRegistry.FirstShortestUnique | Sources/Connect/GenericConnect.swift:659-665 | any position that is minimal with all earlier ones strictly longer is the one the scan keeps |
| EntityRegistry.AttributeMembers | Sources/Connect/GenericConnect.swift:667-674 | the adopted key names exactly the attribute elements of the constraint and is no longer than it |
| EntityRegistry.Decide | Sources/Connect/GenericConnect.swift:635-681 | managed iff registrable; a declared key is kept and managed iff every name is an attribute; otherwise the first shortest constraint's attribute members become the key and the entity is managed; with neither, unmanaged with an empty key |
| EntityRegistry.RegistrationIdempotent | Sources/Connect/GenericConnect.swift:625-699 | registering an already registered entity reaches the same decision and leaves it unchanged |
| EntityRegistry.ValidateUniquenessAttributes | Sources/Connect/GenericConnect.swift:636-645 | the early-exit loop answers true iff every declared attribute is an attribute of the entity |
| EntityRegistry.ShortestConstraint | Sources/Connect/GenericConnect.swift:659-665 | the loop returns the first constraint of minimum length |
| EntityRegistry.AdoptedKey | Sources/Connect/GenericConnect.swift:667-674 | the loop collects the attribute members of the constraint, in order |
| Connect.Suspending | Sources/Connect/GenericConnect.swift:609-613 | the same lanes, each with the new suspended flag and otherwise unchanged |
| Connect.ManagedLanes | Sources/Connect/GenericConnect.swift:683-690 | a lane exists exactly for the registrable entities: serial, suspended, labelled with the lowercased entity name, empty |
| Connect.GenericConnect.constructor | Sources/Connect/GenericConnect.swift:159-184 | initially not started, no log, the generic queue suspended and concurrent with no actions, no lanes; the notification service's source is the new instance and nothing has been posted |
| Connect.GenericConnect.Suspended | Sources/Connect/GenericConnect.swift:598-601 | reports the generic queue's flag; while the lanes are coherent, a suspended coordinator has every lane suspended |
| Connect.GenericConnect.SetSuspended | Sources/Connect/GenericConnect.swift:598-616 | setting the current value touches no queue; otherwise the generic queue and every lane take the new value; the lane invariant is kept |
| Connect.GenericConnect.HandleProtectedDataDidBecomeAvailable | Sources/Connect/GenericConnect.swift:199-206 | the generic queue is resumed and the lanes follow only if it was suspended |
| Connect.GenericConnect.HandleProtectedDataWillBecomeUnavailable | Sources/Connect/GenericConnect.swift:208-215 | the generic queue and every lane end suspended |
| Connect.GenericConnect.Manage | Sources/Connect/GenericConnect.swift:625-699 | returns whether the entity is registrable; marks it and stores its key; a managed entity gets exactly one fresh lane under its name and an unmanaged one leaves the lanes unchanged |
| Connect.GenericConnect.LoadModel | Sources/Connect/GenericConnect.swift:563-574 | every entity is registered, and the lanes are exactly one fresh lane per registrable entity |
| Connect.GenericConnect.UnloadModel | Sources/Connect/GenericConnect.swift:576-592 | every entity ends unmanaged and the lane of every previously managed entity is removed, leaving none |
| Connect.GenericConnect.Start | Sources/Connect/GenericConnect.swift:476-503 | a no-op when started; a failure of the stores or of the log leaves it stopped with the model loaded; success ends started with a log and the generic queue active, and the lanes are resumed only if the generic queue was suspended |
| Connect.GenericConnect.Stop | Sources/Connect/GenericConnect.swift:508-535 | a no-op when stopped; the queues are suspended first; a store failure leaves it started; success ends stopped with no log, every entity unmanaged and no lane |
| Connect.GenericConnect.QueueFor | Sources/Connect/GenericConnect.swift:701-708 | fails with `unmanagedEntity` for the lookup name exactly when no lane is stored under it, and otherwise returns that lane |
| Connect.GenericConnect.ExecuteGeneric | Sources/Connect/GenericConnect.swift:309-320 | exactly one action is appended to the generic queue, and nothing else changes |
| Connect.GenericConnect.ExecuteEntity | Sources/Connect/GenericConnect.swift:352-367 | a lookup name without a lane fails with `unmanagedEntity` and no queue gains an action; otherwise exactly that lane gains the action |
| Connect.ResumeBeforeStart | Sources/Connect/GenericConnect.swift:495-497 | resuming before the first start leaves the generic queue active after start while every lane the start created stays suspended |
| Notifications.NotificationFor | Sources/Connect/Internal/NotificationService.swift:55-65 | `executing` maps to the start notification, `finished` to the finish notification, and every other state to none |
| Notifications.Announcements | Sources/Connect/Internal/NotificationService.swift:51-66 | at most one notification, exactly one iff the state is executing or finished; it carries the current source and maps the action-proxy key to the proxy |
| Notifications.NotificationService.constructor | Sources/Connect/Internal/NotificationService.swift:41-46 | the source is nil and nothing has been posted |
| Notifications.NotificationService.ActionProxyDidChangeState | Sources/Connect/Internal/NotificationService.swift:51-66 | the posted sequence grows by exactly the state's announcements |
| StoreCoordination.Intercept | Sources/Connect/PersistentStoreCoordinator.swift:91-129 | non-commit requests and all requests without a log go straight to the store and leave the log alone; an ID or logging failure propagates without reaching the store; otherwise the store's answer is returned, the log keeps the new transaction on success and removes it on failure |
| StoreCoordination.LoggedBeforeStore | Sources/Connect/PersistentStoreCoordinator.swift:95-114 | whenever a logged request reaches the store, its transaction was logged earlier |
| StoreCoordination.CommitKeepsOrRestoresLog | Sources/Connect/PersistentStoreCoordinator.swift:113-120 | with fresh ids, a successful commit grows the log by exactly one transaction and a failed one leaves it as it was |
| StoreCoordination.WriteAheadLog.constructor | Sources/Connect/PersistentStoreCoordinator.swift:47 | a new log holds no transaction |
| StoreCoordination.WriteAheadLog.LogTransaction | Sources/Connect/PersistentStoreCoordinator.swift:108 | a failure changes nothing; otherwise an id not yet in the log is returned and added, and every logged id stays below the next one |
| StoreCoordination.WriteAheadLog.RemoveTransaction | Sources/Connect/PersistentStoreCoordinator.swift:118 | exactly the given id is removed, and the ids stay fresh |
| StoreCoordination.OpenLog | Sources/Connect/PersistentStoreCoordinator.swift:37-57 | a log exists iff logging is enabled and its creation succeeded; a failed creation is not an error |
| StoreCoordination.PersistentStoreCoordinator.constructor | Sources/Connect/PersistentStoreCoordinator.swift:33-61 | a log exists iff logging is enabled and could be created; it starts empty |
| StoreCoordination.PersistentStoreCoordinator.WithLogging | Sources/Connect/PersistentStoreCoordinator.swift:29-31 | the convenience initialiser enables logging |
| StoreCoordination.PersistentStoreCoordinator.Execute | Sources/Connect/PersistentStoreCoordinator.swift:91-129 | result, log and call trace are those of `Intercept` on the log before the call; a commit that reaches the store adds exactly one new transaction on success and leaves the log as it was on failure; the log's ids stay fresh |

## Left out

- Dispatch queues: `synchronizationQueue.sync/async` and the background callbacks of `start`/`stop` are not modelled. Each public operation is one atomic call, and completion blocks are left out.
- `ActionQueue` execution is not modelled, because its implementation is not part of this model. A queue is its label, its mode, its suspended flag and its pending actions.
- The persistence runtime is reduced to operation outcomes given as parameters. This covers bundle and model loading (`init(name:)`, `abortIfNil`), `_loadPersistentStores`/`_unloadPersistentStores`, `BundleManager`, contexts and merge policy, `obtainPermanentIDs`, `super.execute`, and `addPersistentStore`/`remove`.
- `WriteAheadLog` internals are not modelled; its implementation is not part of this model. What a transaction contains and how it persists are left out. A log opened from disk is modelled as empty.
- `entity.setSettings(from:)` is not modelled. The declared uniqueness attributes are an input of the entity description.
- Entity descriptions are values in a map owned by the coordinator. Aliasing with the data model's own objects is not captured.
- `_loadModel` is declared as throwing, but its body cannot throw, so the model never fails there.
- The model's iteration order over entities is arbitrary. The results do not depend on it.
- NotificationCenter observer registration and removal are not modelled, and neither is the actual `post`. The handlers model only their suspend/resume effect, and posted notifications are a ghost sequence.
- The weak reference behind `source` is not modelled: deallocation does not reset it to nil.
- TraceLog logging, `autoreleasepool` and the `#available(iOS 9.0, *)` check are left out. The availability check is taken as true.
- Connect.GenericConnect.ExecuteEntity: the lane is looked up under the Swift class name of the action's managed-object type, while lanes are stored under the data model's entity names. The model takes that class name as the parameter `lookupName` and does not derive it from the action, so it does not state how the two names relate. A class named differently from its entity finds no lane and fails with `unmanagedEntity`, in the source and in the model alike.
- Connect.GenericConnect.QueueFor: the same applies. `lookupName` stands for the class name the source derives, and the model assumes nothing about how it matches an entity name.
- ActionQueues.Lowercased: only ASCII letters are lowercased. Swift's Unicode case mapping is not modelled.
- The action states `Queued`, `Failed` and `Cancelled` are assumed: the `ActionState` declaration is not part of this model, and only `executing` and `finished` are named where notifications are chosen. Any other cases behave the same way, because they post nothing.
- Connect.GenericConnect.constructor: requires every entity description to be unmanaged and well formed (each attribute element of a constraint is an attribute of the entity). A fresh data model guarantees both, and the source does not check them.
