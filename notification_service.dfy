/// The notification service that announces action lifecycle changes.
/// Posting through the system notification center is modelled as appending
/// to the ghost sequence `posted`.
module Notifications {
  import opened Outcomes
  import opened ActionQueues

  datatype NotificationName = ActionDidStartExecuting | ActionDidFinishExecuting

  /// Keys of a notification's user info.
  datatype UserInfoKey = ActionProxyKey

  /// A posted notification: its name, its object (the sender), its user info.
  datatype Notification = Notification(
    name: NotificationName,
    sender: object?,
    userInfo: map<UserInfoKey, ActionContainer>)

  /// The notification a state change announces, if any.
  function NotificationFor(state: ActionState): (name: Option<NotificationName>)
    ensures name == Some(ActionDidStartExecuting) <==> state == Executing
    ensures name == Some(ActionDidFinishExecuting) <==> state == Finished
    ensures name == None <==> state != Executing && state != Finished
  {
    match state
    case Executing => Some(ActionDidStartExecuting)
    case Finished => Some(ActionDidFinishExecuting)
    case _ => None
  }

  /// What one call of `actionProxy(_:didChangeState:)` posts.
  function Announcements(proxy: ActionContainer, state: ActionState, source: object?): (ns: seq<Notification>)
    ensures |ns| <= 1
    ensures |ns| == 1 <==> state == Executing || state == Finished
    ensures forall i :: 0 <= i < |ns| ==>
      && Some(ns[i].name) == NotificationFor(state)
      && ns[i].sender == source
      && ns[i].userInfo == map[ActionProxyKey := proxy]
  {
    match NotificationFor(state)
    case Some(name) => [Notification(name, source, map[ActionProxyKey := proxy])]
    case None => []
  }

  class NotificationService {
    /// The sender of every notification; a weak back-reference that its
    /// owner assigns once it is fully constructed.
    var source: object?

    /// The notifications posted so far.
    ghost var posted: seq<Notification>

    constructor ()
      ensures source == null && posted == []
    {
      source := null;
      posted := [];
    }

    method ActionProxyDidChangeState(proxy: ActionContainer, newState: ActionState)
      modifies this`posted
      ensures posted == old(posted) + Announcements(proxy, newState, source)
    {
      var name := NotificationFor(newState);
      match name {
        case Some(n) =>
          posted := posted + [Notification(n, source, map[ActionProxyKey := proxy])];
        case None =>
      }
    }
  }
}
