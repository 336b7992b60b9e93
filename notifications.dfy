/** The notification record of the social-media API (notifications/models.py). */
module Notifications {
  import opened Accounts

  type NotificationId = nat

  /**
   * The generic foreign key (content type, object id) as a tagged union.
   * The object id is a PositiveIntegerField, so it is never negative.
   */
  datatype Target =
    | PostTarget(postId: nat)
    | CommentTarget(commentId: nat)
    | UserTarget(userId: UserId)

  datatype Notification = Notification(
    id: NotificationId,
    recipient: UserId,
    actor: UserId,
    verb: string,
    target: Target,
    isRead: bool,
    timestamp: nat)

  /** `verb` is a CharField(max_length=255). */
  const MaxVerbLength := 255

  predicate WellFormed(n: Notification) {
    |n.verb| <= MaxVerbLength
  }

  /** `Notification.objects.create(...)`: `is_read` takes its default and `timestamp` the creation time. */
  function NewNotification(id: NotificationId, recipient: UserId, actor: UserId, verb: string, target: Target, now: nat)
    : (n: Notification)
    requires |verb| <= MaxVerbLength
    ensures WellFormed(n) && !n.isRead && n.timestamp == now
    ensures n.recipient == recipient && n.actor == actor && n.verb == verb && n.target == target
  {
    Notification(id, recipient, actor, verb, target, false, now)
  }

  /** `__str__`: the actor's username, one space, then the verb. */
  function NotificationStr(n: Notification, actor: User): (s: string)
    requires actor.id == n.actor
    ensures |s| == |actor.username| + 1 + |n.verb|
    ensures s[..|actor.username|] == actor.username
    ensures s[|actor.username|] == ' ' && s[|actor.username| + 1..] == n.verb
  {
    UserStr(actor) + " " + n.verb
  }

  /** `on_delete=CASCADE` on both foreign keys: a notification goes when its recipient or its actor goes. */
  predicate Involves(n: Notification, u: UserId) {
    n.recipient == u || n.actor == u
  }
}
