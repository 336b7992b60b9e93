/**
 * `FollowUserView.post` and `UnfollowUserView.post` (accounts/views.py): the follow graph as a
 * state machine over the edge set, with a notification appended on every accepted follow.
 * `requester` is `request.user`: None for an anonymous request, which `IsAuthenticated`
 * turns away before the handler runs.
 */
module FollowViews {
  import opened Outcomes
  import opened Accounts
  import opened Notifications
  import opened SocialStore

  const FollowVerb := "started following you"
  const SelfFollowDetail := "You cannot follow yourself."

  method FollowUser(db: Database, requester: Option<UserId>, userId: UserId, now: nat) returns (st: Status)
    requires db.Valid()
    requires requester.Some? ==> requester.value in db.users
    modifies db`edges, db`notifications, db`nextNotificationId
    ensures db.Valid()
    ensures requester.None? ==> st == NotAuthenticated
    ensures requester.Some? && userId !in db.users ==> st == NotFound
    ensures requester.Some? && userId in db.users && userId == requester.value ==> st == BadRequest(SelfFollowDetail)
    ensures st.Ok? <==> requester.Some? && userId in db.users && userId != requester.value
    ensures !st.Ok? ==>
              db.edges == old(db.edges) && db.notifications == old(db.notifications)
              && db.nextNotificationId == old(db.nextNotificationId)
    ensures st.Ok? ==>
              && st.detail == "You are now following " + db.users[userId].username + "."
              && db.edges == old(db.edges) + {(requester.value, userId)}
              && db.notifications == old(db.notifications) + [
                   NewNotification(old(db.nextNotificationId), userId, requester.value, FollowVerb, UserTarget(userId), now)]
              && db.nextNotificationId == old(db.nextNotificationId) + 1
    ensures NoSelfFollow(old(db.edges)) ==> NoSelfFollow(db.edges)
  {
    if requester.None? {
      return NotAuthenticated;
    }
    var me := requester.value;
    if userId !in db.users {
      return NotFound;
    }
    var target := db.users[userId];
    if userId == me {
      return BadRequest(SelfFollowDetail);
    }
    db.AddFollowing(me, userId);
    var _ := db.CreateNotification(userId, me, FollowVerb, UserTarget(userId), now);
    st := Ok("You are now following " + target.username + ".");
  }

  method UnfollowUser(db: Database, requester: Option<UserId>, userId: UserId) returns (st: Status)
    requires db.Valid()
    requires requester.Some? ==> requester.value in db.users
    modifies db`edges
    ensures db.Valid()
    ensures requester.None? ==> st == NotAuthenticated
    ensures requester.Some? && userId !in db.users ==> st == NotFound
    ensures st.Ok? <==> requester.Some? && userId in db.users
    ensures !st.Ok? ==> db.edges == old(db.edges)
    ensures st.Ok? ==>
              && st.detail == "You unfollowed " + db.users[userId].username + "."
              && db.edges == old(db.edges) - {(requester.value, userId)}
              && userId !in Following(db.edges, requester.value)
    ensures NoSelfFollow(old(db.edges)) ==> NoSelfFollow(db.edges)
  {
    if requester.None? {
      return NotAuthenticated;
    }
    if userId !in db.users {
      return NotFound;
    }
    db.RemoveFollowing(requester.value, userId);
    st := Ok("You unfollowed " + db.users[userId].username + ".");
  }

  /**
   * Following the same user twice: the edge is stored once, yet each call appends its own
   * notification, so the followee is notified twice.
   */
  method FollowTwice(db: Database, a: UserId, b: UserId, t1: nat, t2: nat) returns (first: Status, second: Status)
    requires db.Valid() && a in db.users && b in db.users && a != b
    modifies db`edges, db`notifications, db`nextNotificationId
    ensures first.Ok? && second.Ok?
    ensures db.edges == old(db.edges) + {(a, b)}
    ensures |db.notifications| == |old(db.notifications)| + 2
    ensures db.notifications[|db.notifications| - 2].recipient == b
    ensures db.notifications[|db.notifications| - 1].recipient == b
  {
    first := FollowUser(db, Some(a), b, t1);
    second := FollowUser(db, Some(a), b, t2);
  }
}
