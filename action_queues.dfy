/// The lanes of `GenericConnect`: named action queues with a concurrency
/// mode, a suspended flag and the containers queued on them.
/// The `ActionQueue` class itself (its dispatching and threads) is not part
/// of this model; a queue is represented by the values the coordinator sees.
module ActionQueues {

  /// Identity of a user-supplied action object.
  type ActionId = nat

  /// Lifecycle states an action proxy moves through.
  datatype ActionState = Queued | Executing | Finished | Failed | Cancelled

  /// The container wrapping a submitted action; it is also the `ActionProxy`
  /// handed back to the caller.
  datatype ActionContainer =
    | GenericActionContainer(action: ActionId)
    | EntityActionContainer(action: ActionId, entityName: string)

  datatype ConcurrencyMode = Concurrent | Serial

  datatype Queue = Queue(queueLabel: string, mode: ConcurrencyMode, suspended: bool, pending: seq<ActionContainer>)

  /// Prefix of every queue label.
  const QueuePrefix: string := "connect.queue"

  /// Queues are created suspended.
  const StartSuspended: bool := true

  /// Label of the generic queue.
  const GenericQueueLabel: string := QueuePrefix + ".generic"

  /// ASCII case mapping used for queue labels.
  function LowerChar(c: char): (r: char)
    ensures 'A' <= c <= 'Z' ==> r as int == c as int + 32
    ensures !('A' <= c <= 'Z') ==> r == c
    ensures !('A' <= r <= 'Z')
  {
    if 'A' <= c <= 'Z' then (c as int + 32) as char else c
  }

  function Lowercased(s: string): (r: string)
    ensures |r| == |s|
    ensures forall i :: 0 <= i < |s| ==> r[i] == LowerChar(s[i])
  {
    seq(|s|, i requires 0 <= i < |s| => LowerChar(s[i]))
  }

  /// Label of the serial lane of entity `name`.
  function EntityQueueLabel(name: string): string
  {
    QueuePrefix + ".entity." + Lowercased(name)
  }

  /// The queue `GenericConnect.init` creates for generic actions.
  function NewGenericQueue(): Queue
  {
    Queue(GenericQueueLabel, Concurrent, StartSuspended, [])
  }

  /// The lane `manage` creates for a managed entity.
  function NewEntityQueue(name: string): Queue
  {
    Queue(EntityQueueLabel(name), Serial, StartSuspended, [])
  }
}
