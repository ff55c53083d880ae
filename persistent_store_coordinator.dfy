/// The persistent store coordinator that logs every commit in a write-ahead
/// log before handing it to the store. The store, the context and the log's
/// persistence are runtime collaborators: what they answer is given to each
/// operation as a parameter, and the order of the calls made to them is
/// recorded in the ghost trace `events`.
module StoreCoordination {
  import opened Outcomes

  type TransactionId = nat

  /// The kinds of request a store coordinator executes.
  datatype RequestType = FetchRequestType | SaveRequestType | BatchUpdateRequestType | BatchDeleteRequestType

  /// An error raised by the store, the context or the log.
  datatype StoreError = StoreError(code: int)

  /// What the store answers to a request.
  datatype StoreReply = StoreReply(value: int)

  /// The calls the coordinator made, in order: the calls to the context and
  /// the log that succeeded, and every call to the store, whatever it answered.
  datatype Event =
    | PermanentIdsObtained
    | TransactionLogged(id: TransactionId)
    | StoreExecuted(request: RequestType)
    | TransactionRemoved(id: TransactionId)

  /// The content of a write-ahead log: the transactions it holds and the
  /// identifier the next one receives.
  datatype LogState = LogState(transactions: set<TransactionId>, nextId: TransactionId)

  /// Every logged identifier was handed out before `nextId`.
  predicate FreshIds(log: LogState)
  {
    forall t :: t in log.transactions ==> t < log.nextId
  }

  /// The requests that are logged before they reach the store.
  predicate IsLogged(request: RequestType)
  {
    request == SaveRequestType || request == BatchUpdateRequestType
  }

  /// The outcome of one `execute(_:with:)`: its result, the log afterwards,
  /// and the calls made.
  datatype Step = Step(result: Result<StoreReply, StoreError>, log: Option<LogState>, events: seq<Event>)

  /// `execute(_:with:)` as a function of the log and of what the
  /// collaborators answer: `idsObtained` for obtaining permanent IDs,
  /// `logged` for logging the transaction, `store` for the store itself.
  function Intercept(request: RequestType, log: Option<LogState>,
                     idsObtained: Outcome<StoreError>, logged: Outcome<StoreError>,
                     store: Result<StoreReply, StoreError>): (step: Step)
    // Fetches, other requests and every request without a log go straight
    // to the store.
    ensures !IsLogged(request) || log.None? ==>
      step == Step(store, log, [StoreExecuted(request)])
    // A failure before the store is reached propagates, and the store is
    // never called.
    ensures IsLogged(request) && log.Some? && (idsObtained.Fail? || logged.Fail?) ==>
      && step.result == Failure(if idsObtained.Fail? then idsObtained.error else logged.error)
      && step.log == log
      && StoreExecuted(request) !in step.events
    // Once the transaction is logged, the store's answer is the result.
    ensures IsLogged(request) && log.Some? && idsObtained.Pass? && logged.Pass? ==>
      && step.result == store
      && step.log.Some? && step.log.value.nextId == log.value.nextId + 1
    // On success the logged transaction stays in the log ...
    ensures IsLogged(request) && log.Some? && idsObtained.Pass? && logged.Pass? && store.Success? ==>
      step.log.value.transactions == log.value.transactions + {log.value.nextId}
    // ... on failure it is removed again.
    ensures IsLogged(request) && log.Some? && idsObtained.Pass? && logged.Pass? && store.Failure? ==>
      step.log.value.transactions == log.value.transactions - {log.value.nextId}
  {
    if IsLogged(request) && log.Some? then
      var current := log.value;
      if idsObtained.Fail? then Step(Failure(idsObtained.error), log, [])
      else if logged.Fail? then Step(Failure(logged.error), log, [PermanentIdsObtained])
      else
        var id := current.nextId;
        var written := LogState(current.transactions + {id}, id + 1);
        var calls := [PermanentIdsObtained, TransactionLogged(id), StoreExecuted(request)];
        if store.Success? then Step(store, Some(written), calls)
        else Step(store, Some(written.(transactions := written.transactions - {id})), calls + [TransactionRemoved(id)])
    else
      Step(store, log, [StoreExecuted(request)])
  }

  /// A logged request reaches the store only after its transaction has been
  /// logged, and that transaction is the one the log's `nextId` named.
  lemma LoggedBeforeStore(request: RequestType, log: LogState,
                          idsObtained: Outcome<StoreError>, logged: Outcome<StoreError>,
                          store: Result<StoreReply, StoreError>)
    requires IsLogged(request)
    ensures var events := Intercept(request, Some(log), idsObtained, logged, store).events;
      forall j :: 0 <= j < |events| && events[j] == StoreExecuted(request) ==>
        exists i :: 0 <= i < j && events[i] == TransactionLogged(log.nextId)
  {
    var events := Intercept(request, Some(log), idsObtained, logged, store).events;
    forall j | 0 <= j < |events| && events[j] == StoreExecuted(request)
      ensures exists i :: 0 <= i < j && events[i] == TransactionLogged(log.nextId)
    {
      assert j == 2 && events[1] == TransactionLogged(log.nextId);
    }
  }

  /// A commit that reaches the store grows the log by exactly one
  /// transaction when the store succeeds, and leaves it as it was when the
  /// store fails.
  lemma CommitKeepsOrRestoresLog(request: RequestType, log: LogState,
                                 idsObtained: Outcome<StoreError>, logged: Outcome<StoreError>,
                                 store: Result<StoreReply, StoreError>)
    requires FreshIds(log) && IsLogged(request) && idsObtained.Pass? && logged.Pass?
    ensures var after := Intercept(request, Some(log), idsObtained, logged, store).log.value;
      && FreshIds(after)
      && (store.Success? ==> |after.transactions| == |log.transactions| + 1)
      && (store.Failure? ==> after.transactions == log.transactions)
  {
  }

  /// The write-ahead log. How it persists its transactions is not part of
  /// this model; it hands out fresh identifiers.
  class WriteAheadLog {
    var transactions: set<TransactionId>
    var nextId: TransactionId

    function State(): LogState
      reads this
    {
      LogState(transactions, nextId)
    }

    /// Every logged transaction has an identifier handed out earlier.
    ghost predicate Valid()
      reads this
    {
      FreshIds(State())
    }

    constructor ()
      ensures Valid()
      ensures transactions == {} && nextId == 0
    {
      transactions := {};
      nextId := 0;
    }

    /// Logs the changes of the context being saved; `outcome` is whether
    /// the log could write them.
    method LogTransaction(outcome: Outcome<StoreError>) returns (r: Result<TransactionId, StoreError>)
      requires Valid()
      modifies this
      ensures Valid()
      ensures outcome.Fail? ==> r == Failure(outcome.error) && State() == old(State())
      ensures outcome.Pass? ==>
        && r == Success(old(nextId)) && old(nextId) !in old(transactions)
        && transactions == old(transactions) + {old(nextId)} && nextId == old(nextId) + 1
    {
      if outcome.Fail? {
        return Failure(outcome.error);
      }
      r := Success(nextId);
      transactions := transactions + {nextId};
      nextId := nextId + 1;
    }

    method RemoveTransaction(id: TransactionId)
      requires Valid()
      modifies this
      ensures Valid()
      ensures transactions == old(transactions) - {id} && nextId == old(nextId)
    {
      transactions := transactions - {id};
    }
  }

  /// Opens the log a coordinator works with: none when logging is disabled
  /// or when the log cannot be created (`created` is whether it could).
  method OpenLog(enableLogging: bool, created: Outcome<StoreError>) returns (log: WriteAheadLog?)
    ensures log != null <==> enableLogging && created.Pass?
    ensures log != null ==> fresh(log) && log.Valid() && log.State() == LogState({}, 0)
  {
    if enableLogging {
      if created.Pass? {
        log := new WriteAheadLog();
      } else {
        log := null;
      }
    } else {
      log := null;
    }
  }

  class PersistentStoreCoordinator {
    const writeAheadLog: WriteAheadLog?

    /// The calls made so far, as `Event` lists them.
    ghost var events: seq<Event>

    /// The log, when there is one, keeps its identifiers fresh.
    ghost predicate Valid()
      reads this, writeAheadLog
    {
      writeAheadLog != null ==> writeAheadLog.Valid()
    }

    function LogView(): Option<LogState>
      reads this, writeAheadLog
    {
      if writeAheadLog == null then None else Some(writeAheadLog.State())
    }

    /// `init(managedObjectModel:enableLogging:)`: a log that cannot be
    /// created leaves the coordinator without one; it is not an error.
    constructor (enableLogging: bool, logCreated: Outcome<StoreError>)
      ensures Valid()
      ensures writeAheadLog != null <==> enableLogging && logCreated.Pass?
      ensures writeAheadLog != null ==> fresh(writeAheadLog) && LogView() == Some(LogState({}, 0))
      ensures events == []
    {
      var log := OpenLog(enableLogging, logCreated);
      writeAheadLog := log;
      events := [];
    }

    /// `init(managedObjectModel:)`: logging is enabled.
    constructor WithLogging(logCreated: Outcome<StoreError>)
      ensures Valid()
      ensures writeAheadLog != null <==> logCreated.Pass?
      ensures writeAheadLog != null ==> fresh(writeAheadLog) && LogView() == Some(LogState({}, 0))
      ensures events == []
    {
      var log := OpenLog(true, logCreated);
      writeAheadLog := log;
      events := [];
    }

    /// `execute(_:with:)`.
    method Execute(request: RequestType, idsObtained: Outcome<StoreError>, logged: Outcome<StoreError>,
                   store: Result<StoreReply, StoreError>) returns (r: Result<StoreReply, StoreError>)
      requires Valid()
      modifies this, writeAheadLog
      ensures Valid()
      ensures var step := Intercept(request, old(LogView()), idsObtained, logged, store);
        && r == step.result
        && LogView() == step.log
        && events == old(events) + step.events
      // A commit that reaches the store: on success the log gains exactly one
      // new transaction, on failure it is left as it was.
      ensures IsLogged(request) && writeAheadLog != null && idsObtained.Pass? && logged.Pass? ==>
        && (store.Success? ==>
              && writeAheadLog.transactions == old(writeAheadLog.transactions) + {old(writeAheadLog.nextId)}
              && |writeAheadLog.transactions| == |old(writeAheadLog.transactions)| + 1)
        && (store.Failure? ==> writeAheadLog.transactions == old(writeAheadLog.transactions))
    {
      ghost var log0 := LogView();
      if log0.Some? && IsLogged(request) && idsObtained.Pass? && logged.Pass? {
        CommitKeepsOrRestoresLog(request, log0.value, idsObtained, logged, store);
      }
      if IsLogged(request) && writeAheadLog != null {
        if idsObtained.Fail? {
          return Failure(idsObtained.error);
        }
        events := events + [PermanentIdsObtained];
        var id := writeAheadLog.LogTransaction(logged);
        if id.Failure? {
          return Failure(id.error);
        }
        events := events + [TransactionLogged(id.value)];
        events := events + [StoreExecuted(request)];
        if store.Success? {
          return store;
        }
        writeAheadLog.RemoveTransaction(id.value);
        events := events + [TransactionRemoved(id.value)];
        return store;
      }
      events := events + [StoreExecuted(request)];
      r := store;
    }
  }
}
