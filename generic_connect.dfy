/// The coordinator `GenericConnect`: entity registration into per-entity
/// lanes, the start/stop state machine, suspension of the lanes and the
/// submission of actions. Every public operation runs on one
/// synchronization queue, so each method here is one atomic call.
module Connect {
  import opened Outcomes
  import opened ActionQueues
  import opened EntityRegistry
  import Notifications

  datatype ConnectError =
    | UnmanagedEntity(entityName: string)
    /// A failure thrown by the persistence runtime (store or log loading).
    | CoreDataError(code: int)

  /// Every lane with its suspended flag set to `value`.
  function Suspending(lanes: map<string, Queue>, value: bool): (r: map<string, Queue>)
    ensures r.Keys == lanes.Keys
    ensures forall n :: n in r ==> r[n] == lanes[n].(suspended := value)
  {
    map n | n in lanes :: lanes[n].(suspended := value)
  }

  /// The lanes loading the model leaves: a fresh one per manageable entity.
  function ManagedLanes(entities: map<string, Entity>): (r: map<string, Queue>)
    ensures forall n :: n in r <==> n in entities && CanBeManaged(entities[n])
    ensures forall n :: n in r ==> r[n] == NewEntityQueue(n)
  {
    map n | n in entities && CanBeManaged(entities[n]) :: NewEntityQueue(n)
  }

  /// The entity descriptions after every one of them was registered.
  function RegisterAll(entities: map<string, Entity>): map<string, Entity>
  {
    map n | n in entities :: Registered(entities[n])
  }

  /// The entity descriptions after unloading the model.
  function UnmanageAll(entities: map<string, Entity>): map<string, Entity>
  {
    map n | n in entities :: entities[n].(managed := false)
  }

  /// Names of the entities currently marked managed.
  function ManagedNames(entities: map<string, Entity>): set<string>
  {
    set n | n in entities && entities[n].managed
  }

  /// How the generic queue, the lanes and the entity descriptions relate
  /// between the public operations.
  ghost predicate Coherent(generic: Queue, lanes: map<string, Queue>, entities: map<string, Entity>)
  {
    && generic.queueLabel == GenericQueueLabel && generic.mode == Concurrent
    && (forall n :: n in entities ==> WellFormed(entities[n]))
    // A lane exists exactly for the entities marked managed ...
    && (forall n :: n in lanes <==> n in entities && entities[n].managed)
    // ... and only an entity registration accepts is marked managed.
    && (forall n :: n in entities && entities[n].managed ==> CanBeManaged(entities[n]))
    && (forall n :: n in lanes ==> lanes[n].queueLabel == EntityQueueLabel(n) && lanes[n].mode == Serial)
    // Suspending the coordinator suspends every lane.
    && (generic.suspended ==> forall n :: n in lanes ==> lanes[n].suspended)
  }

  /// Where `_loadModel`'s loop stands once the names outside `remaining`
  /// are done: those entities are registered and the manageable ones have a
  /// fresh lane.
  ghost predicate LoadedExcept(entities0: map<string, Entity>, entities: map<string, Entity>,
                               lanes: map<string, Queue>, remaining: set<string>)
  {
    && remaining <= entities.Keys && entities.Keys == entities0.Keys
    && (forall n :: n in entities ==>
          entities[n] == if n in remaining then entities0[n] else Registered(entities0[n]))
    && (forall n :: n in lanes && n !in remaining ==> lanes[n] == NewEntityQueue(n))
  }

  /// One turn of `_loadModel`'s loop, given what `manage` did.
  lemma LoadStep(generic: Queue, entities0: map<string, Entity>, entities: map<string, Entity>, lanes: map<string, Queue>,
                 remaining: set<string>, n: string, entities': map<string, Entity>, lanes': map<string, Queue>)
    requires Coherent(generic, lanes, entities)
    requires LoadedExcept(entities0, entities, lanes, remaining) && n in remaining
    requires entities' == entities[n := Registered(entities[n])]
    requires lanes' == if CanBeManaged(entities[n]) then lanes[n := NewEntityQueue(n)] else lanes
    ensures LoadedExcept(entities0, entities', lanes', remaining - {n})
  {
  }

  /// The end of `_loadModel`'s loop.
  lemma LoadDone(generic: Queue, entities0: map<string, Entity>, entities: map<string, Entity>, lanes: map<string, Queue>)
    requires Coherent(generic, lanes, entities) && LoadedExcept(entities0, entities, lanes, {})
    ensures entities == RegisterAll(entities0)
    ensures lanes == ManagedLanes(entities0)
  {
  }

  /// Where `_unloadModel`'s loop stands once the names outside `remaining`
  /// are done: those entities are unmanaged and their lanes are gone.
  ghost predicate UnloadedExcept(entities0: map<string, Entity>, lanes0: map<string, Queue>,
                                 entities: map<string, Entity>, lanes: map<string, Queue>, remaining: set<string>)
  {
    && remaining <= entities.Keys && entities.Keys == entities0.Keys
    && (forall n :: n in entities ==>
          entities[n] == if n in remaining then entities0[n] else entities0[n].(managed := false))
    && (forall n :: n in lanes ==> n in remaining && n in lanes0 && lanes[n] == lanes0[n])
  }

  /// One turn of `_unloadModel`'s loop.
  lemma UnloadStep(generic: Queue, entities0: map<string, Entity>, lanes0: map<string, Queue>,
                   entities: map<string, Entity>, lanes: map<string, Queue>, remaining: set<string>, n: string,
                   entities': map<string, Entity>, lanes': map<string, Queue>)
    requires Coherent(generic, lanes, entities) && UnloadedExcept(entities0, lanes0, entities, lanes, remaining)
    requires n in remaining
    requires entities' == if entities[n].managed then entities[n := entities[n].(managed := false)] else entities
    requires lanes' == if entities[n].managed then lanes - {n} else lanes
    ensures Coherent(generic, lanes', entities') && UnloadedExcept(entities0, lanes0, entities', lanes', remaining - {n})
  {
  }

  /// The end of `_unloadModel`'s loop.
  lemma UnloadDone(generic: Queue, entities0: map<string, Entity>, lanes0: map<string, Queue>,
                   entities: map<string, Entity>, lanes: map<string, Queue>)
    requires Coherent(generic, lanes0, entities0) && UnloadedExcept(entities0, lanes0, entities, lanes, {})
    ensures entities == UnmanageAll(entities0)
    ensures lanes == map[] && lanes == lanes0 - ManagedNames(entities0)
  {
  }

  class GenericConnect {
    const name: string
    const notificationService: Notifications.NotificationService

    var started: bool
    /// Whether a write-ahead log is attached.
    var walPresent: bool
    var genericQueue: Queue
    /// The serial lanes, by entity name.
    var entityQueues: map<string, Queue>
    /// The data model's entity descriptions, by name.
    var entities: map<string, Entity>

    ghost predicate Valid()
      reads this
    {
      && (started <==> walPresent)
      && LanesValid()
    }

    /// The invariant of the lanes and the entity descriptions.
    ghost predicate LanesValid()
      reads this
    {
      Coherent(genericQueue, entityQueues, entities)
    }

    constructor (name: string, entities: map<string, Entity>)
      requires forall n :: n in entities ==> WellFormed(entities[n]) && !entities[n].managed
      ensures Valid()
      ensures this.name == name && this.entities == entities
      ensures !started && !walPresent
      ensures genericQueue == NewGenericQueue() && entityQueues == map[]
      ensures fresh(notificationService) && notificationService.source == this && notificationService.posted == []
    {
      this.name := name;
      this.entities := entities;
      notificationService := new Notifications.NotificationService();
      genericQueue := NewGenericQueue();
      entityQueues := map[];
      started := false;
      walPresent := false;
      new;
      // The service may refer to the coordinator only once it is complete.
      notificationService.source := this;
    }

    /// The getter of `suspended`: the generic queue's flag. While the lanes
    /// are coherent, a suspended coordinator has every lane suspended too.
    function Suspended(): (r: bool)
      reads this
      ensures r == genericQueue.suspended
      ensures LanesValid() && r ==> forall n :: n in entityQueues ==> entityQueues[n].suspended
    {
      genericQueue.suspended
    }

    /// The setter of `suspended`.
    method SetSuspended(newValue: bool)
      requires LanesValid()
      modifies this`genericQueue, this`entityQueues
      ensures LanesValid()
      ensures newValue == old(genericQueue.suspended) ==>
        genericQueue == old(genericQueue) && entityQueues == old(entityQueues)
      ensures newValue != old(genericQueue.suspended) ==>
        && genericQueue == old(genericQueue).(suspended := newValue)
        && entityQueues == Suspending(old(entityQueues), newValue)
    {
      if newValue != genericQueue.suspended {
        genericQueue := genericQueue.(suspended := newValue);
        var remaining := entityQueues.Keys;
        while remaining != {}
          invariant genericQueue == old(genericQueue).(suspended := newValue)
          invariant remaining <= entityQueues.Keys && entityQueues.Keys == old(entityQueues).Keys
          invariant forall n :: n in entityQueues ==>
            entityQueues[n] == if n in remaining then old(entityQueues)[n] else old(entityQueues)[n].(suspended := newValue)
          decreases remaining
        {
          var n :| n in remaining;
          entityQueues := entityQueues[n := entityQueues[n].(suspended := newValue)];
          remaining := remaining - {n};
        }
        assert entityQueues == Suspending(old(entityQueues), newValue);
      }
    }

    method HandleProtectedDataDidBecomeAvailable()
      requires Valid()
      modifies this`genericQueue, this`entityQueues
      ensures Valid()
      ensures !genericQueue.suspended && genericQueue.pending == old(genericQueue.pending)
      ensures entityQueues == if old(genericQueue.suspended) then Suspending(old(entityQueues), false) else old(entityQueues)
    {
      SetSuspended(false);
    }

    method HandleProtectedDataWillBecomeUnavailable()
      requires Valid()
      modifies this`genericQueue, this`entityQueues
      ensures Valid()
      ensures genericQueue.suspended && genericQueue.pending == old(genericQueue.pending)
      ensures entityQueues == if old(genericQueue.suspended) then old(entityQueues) else Suspending(old(entityQueues), true)
      ensures forall n :: n in entityQueues ==> entityQueues[n].suspended
    {
      SetSuspended(true);
    }

    /// Registers one entity of the model and gives it a lane if it can be
    /// managed; answers whether it is managed.
    method Manage(entityName: string) returns (managed: bool)
      requires LanesValid() && entityName in entities
      modifies this`entities, this`entityQueues
      ensures LanesValid()
      ensures managed == CanBeManaged(old(entities)[entityName])
      ensures entities == old(entities)[entityName := Registered(old(entities)[entityName])]
      ensures entityQueues == if managed then old(entityQueues)[entityName := NewEntityQueue(entityName)] else old(entityQueues)
    {
      var entity := entities[entityName];
      var canBeManaged := true;
      var key := entity.uniquenessAttributes;
      if entity.uniquenessAttributes != [] {
        var valid := ValidateUniquenessAttributes(entity.uniquenessAttributes, entity.attributeNames);
        if !valid {
          canBeManaged := false;
        }
      } else if entity.uniquenessConstraints != [] {
        var shortest := ShortestConstraint(entity.uniquenessConstraints);
        key := AdoptedKey(shortest);
      } else {
        canBeManaged := false;
      }
      if canBeManaged {
        entityQueues := entityQueues[entityName := NewEntityQueue(entityName)];
      }
      entities := entities[entityName := entity.(uniquenessAttributes := key, managed := canBeManaged)];
      RegistrationIdempotent(entity);
      managed := canBeManaged;
    }

    /// `_loadModel`: registers every entity of the model, in any order.
    method LoadModel()
      requires LanesValid()
      modifies this`entities, this`entityQueues
      ensures LanesValid()
      ensures entities == RegisterAll(old(entities))
      ensures entityQueues == ManagedLanes(old(entities))
    {
      var remaining := entities.Keys;
      while remaining != {}
        invariant LanesValid()
        invariant LoadedExcept(old(entities), entities, entityQueues, remaining)
        decreases remaining
      {
        var n :| n in remaining;
        ghost var entities0, lanes0 := entities, entityQueues;
        var _ := Manage(n);
        LoadStep(genericQueue, old(entities), entities0, lanes0, remaining, n, entities, entityQueues);
        remaining := remaining - {n};
      }
      LoadDone(genericQueue, old(entities), entities, entityQueues);
    }

    /// `_unloadModel`: every managed entity is marked unmanaged and its lane
    /// is discarded.
    method UnloadModel()
      requires LanesValid()
      modifies this`entities, this`entityQueues
      ensures LanesValid()
      ensures entities == UnmanageAll(old(entities))
      ensures entityQueues == old(entityQueues) - ManagedNames(old(entities))
      ensures entityQueues == map[]
    {
      var remaining := entities.Keys;
      while remaining != {}
        invariant LanesValid()
        invariant UnloadedExcept(old(entities), old(entityQueues), entities, entityQueues, remaining)
        decreases remaining
      {
        var n :| n in remaining;
        ghost var entities0, lanes0 := entities, entityQueues;
        if entities[n].managed {
          entities := entities[n := entities[n].(managed := false)];
          entityQueues := entityQueues - {n};
        }
        UnloadStep(genericQueue, old(entities), old(entityQueues), entities0, lanes0, remaining, n, entities, entityQueues);
        remaining := remaining - {n};
      }
      UnloadDone(genericQueue, old(entities), old(entityQueues), entities, entityQueues);
    }

    /// `_start`: loads the model, the stores and the write-ahead log, then
    /// resumes the queues. `storesLoaded` and `logOpened` are the outcomes of
    /// the persistence runtime's calls.
    method Start(storesLoaded: Outcome<ConnectError>, logOpened: Outcome<ConnectError>) returns (r: Outcome<ConnectError>)
      requires Valid()
      modifies this`started, this`walPresent, this`genericQueue, this`entityQueues, this`entities
      ensures Valid()
      // Starting a started instance does nothing.
      ensures old(started) ==> r == Pass && unchanged(this)
      ensures !old(started) ==>
        && entities == RegisterAll(old(entities))
        && genericQueue.pending == old(genericQueue.pending)
      // A failure leaves the instance stopped, with the model loaded.
      ensures !old(started) && storesLoaded.Fail? ==>
        r == storesLoaded && !started && !walPresent &&
        genericQueue == old(genericQueue) && entityQueues == ManagedLanes(old(entities))
      ensures !old(started) && storesLoaded.Pass? && logOpened.Fail? ==>
        r == logOpened && !started && !walPresent &&
        genericQueue == old(genericQueue) && entityQueues == ManagedLanes(old(entities))
      // Success: started, logging, generic queue active; the lanes are
      // resumed only if the generic queue was suspended before.
      ensures !old(started) && storesLoaded.Pass? && logOpened.Pass? ==>
        && r == Pass && started && walPresent && !genericQueue.suspended
        && entityQueues == if old(genericQueue.suspended) then Suspending(ManagedLanes(old(entities)), false)
                           else ManagedLanes(old(entities))
    {
      if started {
        return Pass;
      }
      LoadModel();
      if storesLoaded.Fail? {
        return storesLoaded;
      }
      if logOpened.Fail? {
        return logOpened;
      }
      walPresent := true;
      if Suspended() {
        SetSuspended(false);
      }
      started := true;
      r := Pass;
    }

    /// `_stop`: suspends the queues, unloads the stores, drops the
    /// write-ahead log and unloads the model. `storesUnloaded` is the outcome
    /// of the persistence runtime's call.
    method Stop(storesUnloaded: Outcome<ConnectError>) returns (r: Outcome<ConnectError>)
      requires Valid()
      modifies this`started, this`walPresent, this`genericQueue, this`entityQueues, this`entities
      ensures Valid()
      // Stopping a stopped instance does nothing.
      ensures !old(started) ==> r == Pass && unchanged(this)
      ensures old(started) ==> genericQueue == old(genericQueue).(suspended := true)
      // A failure leaves the instance started, with every lane suspended.
      ensures old(started) && storesUnloaded.Fail? ==>
        && r == storesUnloaded && started && walPresent && entities == old(entities)
        && entityQueues == (if old(genericQueue.suspended) then old(entityQueues) else Suspending(old(entityQueues), true))
      // Success: stopped, no log, no lane left.
      ensures old(started) && storesUnloaded.Pass? ==>
        && r == Pass && !started && !walPresent
        && entities == UnmanageAll(old(entities)) && entityQueues == map[]
    {
      if !started {
        return Pass;
      }
      if !Suspended() {
        SetSuspended(true);
      }
      if storesUnloaded.Fail? {
        return storesUnloaded;
      }
      walPresent := false;
      UnloadModel();
      started := false;
      r := Pass;
    }

    /// `queue(entity:)`: the lane stored under `lookupName` (the name the
    /// action's managed-object type gives), or `unmanagedEntity`.
    function QueueFor(lookupName: string): (r: Result<Queue, ConnectError>)
      reads this
      ensures r.Failure? <==> lookupName !in entityQueues
      ensures r.Failure? ==> r.error == UnmanagedEntity(lookupName)
      ensures r.Success? ==> r.value == entityQueues[lookupName]
    {
      if lookupName in entityQueues then Success(entityQueues[lookupName]) else Failure(UnmanagedEntity(lookupName))
    }

    /// Submits a generic action to the generic queue.
    method ExecuteGeneric(action: ActionId) returns (proxy: ActionContainer)
      requires Valid()
      modifies this`genericQueue
      ensures Valid()
      ensures proxy == GenericActionContainer(action)
      ensures genericQueue == old(genericQueue).(pending := old(genericQueue.pending) + [proxy])
    {
      proxy := GenericActionContainer(action);
      genericQueue := genericQueue.(pending := genericQueue.pending + [proxy]);
    }

    /// Submits an entity action to the lane stored under `lookupName`; a
    /// name without a lane is rejected before anything is queued.
    method ExecuteEntity(action: ActionId, lookupName: string) returns (r: Result<ActionContainer, ConnectError>)
      requires Valid()
      modifies this`entityQueues
      ensures Valid()
      ensures lookupName !in old(entityQueues) ==>
        r == Failure(UnmanagedEntity(lookupName)) && entityQueues == old(entityQueues)
      ensures lookupName in old(entityQueues) ==>
        && r == Success(EntityActionContainer(action, lookupName))
        && entityQueues == old(entityQueues)[lookupName :=
             old(entityQueues)[lookupName].(pending := old(entityQueues)[lookupName].pending + [r.value])]
    {
      var lane := QueueFor(lookupName);
      if lane.Failure? {
        return Failure(lane.error);
      }
      var container := EntityActionContainer(action, lookupName);
      entityQueues := entityQueues[lookupName := lane.value.(pending := lane.value.pending + [container])];
      r := Success(container);
    }
  }

  /// Resuming before the first start activates the generic queue only: the
  /// lanes created by the start stay suspended while the generic queue runs.
  method ResumeBeforeStart(name: string, entities: map<string, Entity>) returns (connect: GenericConnect)
    requires forall n :: n in entities ==> WellFormed(entities[n]) && !entities[n].managed
    ensures connect.started && !connect.genericQueue.suspended
    ensures connect.entityQueues == ManagedLanes(entities)
    ensures forall n :: n in connect.entityQueues ==> connect.entityQueues[n].suspended
  {
    connect := new GenericConnect(name, entities);
    connect.SetSuspended(false);
    var _ := connect.Start(Pass, Pass);
  }
}
