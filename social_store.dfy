/**
 * The database behind the social-media API: the user, token, post, comment, like and
 * notification tables, with the referential integrity the foreign keys declare and the
 * `on_delete=CASCADE` rules of accounts/models.py, posts/models.py and notifications/models.py.
 * `Tables` is a snapshot of every table; the class `Database` holds the same tables as
 * fields, and each of its methods is one ORM write (`objects.create`, `following.add`, `delete()`).
 */
module SocialStore {
  import opened Outcomes
  import opened Sequences
  import opened Accounts
  import opened Notifications
  import opened Content

  /** An authentication token's key; generating it is the token model's business, so it is opaque here. */
  type TokenKey = string

  datatype Tables = Tables(
    users: map<UserId, User>,
    edges: set<Edge>,
    tokens: map<UserId, TokenKey>,
    posts: seq<Post>,
    comments: seq<Comment>,
    likes: seq<Like>,
    notifications: seq<Notification>,
    // The next value of each auto-incremented primary key.
    nextUserId: nat,
    nextPostId: nat,
    nextCommentId: nat,
    nextLikeId: nat,
    nextNotificationId: nat)

  ghost predicate UsersConsistent(t: Tables) {
    && (forall id :: id in t.users ==> t.users[id].id == id && id < t.nextUserId)
    && (forall e :: e in t.edges ==> e.0 in t.users && e.1 in t.users)
    && t.tokens.Keys <= t.users.Keys
  }

  /** Two comment rows under different primary keys. */
  predicate CommentKeysDiffer(a: Comment, b: Comment) {
    a.id != b.id
  }

  /** Two like rows under different primary keys. */
  predicate LikeKeysDiffer(a: Like, b: Like) {
    a.id != b.id
  }

  /** Two notification rows under different primary keys. */
  predicate NotificationKeysDiffer(a: Notification, b: Notification) {
    a.id != b.id
  }

  ghost predicate PostsConsistent(t: Tables) {
    && Pairwise(t.posts, PostKeysDiffer)
    && (forall p :: p in t.posts ==> p.id < t.nextPostId && p.author in t.users && |p.title| <= MaxTitleLength)
  }

  ghost predicate CommentsConsistent(t: Tables) {
    && Pairwise(t.comments, CommentKeysDiffer)
    && (forall c :: c in t.comments ==> c.id < t.nextCommentId && c.post in PostIds(t.posts) && c.author in t.users)
  }

  ghost predicate LikesConsistent(t: Tables) {
    && LikesUnique(t.likes)
    && Pairwise(t.likes, LikeKeysDiffer)
    && (forall l :: l in t.likes ==> l.id < t.nextLikeId && l.user in t.users && l.post in PostIds(t.posts))
  }

  ghost predicate NotificationsConsistent(t: Tables) {
    && Pairwise(t.notifications, NotificationKeysDiffer)
    && (forall n :: n in t.notifications ==>
          n.id < t.nextNotificationId && n.recipient in t.users && n.actor in t.users && WellFormed(n))
  }

  /**
   * Every foreign key points at an existing row, every primary key is unique and below the next
   * one to be handed out, and the like table honours its unique pair. The generic target of a notification
   * is not a foreign key and may dangle.
   */
  ghost predicate Consistent(t: Tables) {
    UsersConsistent(t) && PostsConsistent(t) && CommentsConsistent(t) && LikesConsistent(t)
    && NotificationsConsistent(t)
  }

  /** `post.delete()`: the post, its comments and its likes go; every other table is untouched. */
  function WithoutPost(t: Tables, pid: PostId): (r: Tables)
    ensures forall p :: p in r.posts <==> p in t.posts && p.id != pid
    ensures forall c :: c in r.comments <==> c in t.comments && c.post != pid
    ensures forall l :: l in r.likes <==> l in t.likes && l.post != pid
    ensures r.users == t.users && r.edges == t.edges && r.tokens == t.tokens
    ensures r.notifications == t.notifications
    ensures r.nextUserId == t.nextUserId && r.nextPostId == t.nextPostId && r.nextCommentId == t.nextCommentId
    ensures r.nextLikeId == t.nextLikeId && r.nextNotificationId == t.nextNotificationId
  {
    t.(posts := Filter(t.posts, (p: Post) => p.id != pid),
       comments := Filter(t.comments, (c: Comment) => c.post != pid),
       likes := Filter(t.likes, (l: Like) => l.post != pid))
  }

  /** The post cascade leaves no comment or like pointing at a missing post. */
  lemma WithoutPostConsistent(t: Tables, pid: PostId)
    requires Consistent(t)
    ensures Consistent(WithoutPost(t, pid))
  {
    var r := WithoutPost(t, pid);
    KeptPostIds(t.posts, (p: Post) => p.id != pid, {pid});
    assert PostIds(t.posts) - {pid} <= PostIds(r.posts);
    FilterKeepsLikesUnique(t.likes, (l: Like) => l.post != pid);
    FilterPairwise(t.posts, (p: Post) => p.id != pid, PostKeysDiffer);
    FilterPairwise(t.comments, (c: Comment) => c.post != pid, CommentKeysDiffer);
    FilterPairwise(t.likes, (l: Like) => l.post != pid, LikeKeysDiffer);
    assert CommentsConsistent(r) by {
      forall c | c in r.comments ensures c.id < r.nextCommentId && c.post in PostIds(r.posts) && c.author in r.users {
        assert c in t.comments;
      }
    }
    assert LikesConsistent(r) by {
      forall l | l in r.likes ensures l.id < r.nextLikeId && l.user in r.users && l.post in PostIds(r.posts) {
        assert l in t.likes;
      }
    }
  }

  /**
   * Deleting user `u`: its posts (with every comment and like on them), its own comments and
   * likes, its token, its follow edges in both directions and every notification it sent or
   * received go; the primary-key counters stay.
   */
  function WithoutUser(t: Tables, u: UserId): (r: Tables)
    ensures r.users == t.users - {u} && r.tokens == t.tokens - {u}
    ensures r.nextUserId == t.nextUserId && r.nextPostId == t.nextPostId && r.nextCommentId == t.nextCommentId
    ensures r.nextLikeId == t.nextLikeId && r.nextNotificationId == t.nextNotificationId
  {
    var doomed := PostIdsBy(t.posts, u);
    var edges := set e | e in t.edges && e.0 != u && e.1 != u;
    t.(users := t.users - {u},
       edges := edges,
       tokens := t.tokens - {u},
       posts := Filter(t.posts, (p: Post) => p.author != u),
       comments := Filter(t.comments, (c: Comment) => c.author != u && c.post !in doomed),
       likes := Filter(t.likes, (l: Like) => l.user != u && l.post !in doomed),
       notifications := Filter(t.notifications, (n: Notification) => !Involves(n, u)))
  }

  /** Exactly the rows that depend on `u`, directly or through one of its posts, are gone. */
  lemma WithoutUserRemoves(t: Tables, u: UserId)
    ensures var r := WithoutUser(t, u);
            && (forall e :: e in r.edges <==> e in t.edges && e.0 != u && e.1 != u)
            && (forall p :: p in r.posts <==> p in t.posts && p.author != u)
            && (forall c :: c in r.comments <==>
                  c in t.comments && c.author != u && c.post !in PostIdsBy(t.posts, u))
            && (forall l :: l in r.likes <==>
                  l in t.likes && l.user != u && l.post !in PostIdsBy(t.posts, u))
            && (forall n :: n in r.notifications <==> n in t.notifications && !Involves(n, u))
  {
  }

  /** The user cascade leaves no row of any table pointing at the deleted user or at one of its posts. */
  lemma WithoutUserConsistent(t: Tables, u: UserId)
    requires Consistent(t)
    ensures Consistent(WithoutUser(t, u))
  {
    var r := WithoutUser(t, u);
    var doomed := PostIdsBy(t.posts, u);
    UserCascadeKeepsOtherPosts(t, r, doomed, u);
    UserCascadeUsers(t, r, u);
    UserCascadePosts(t, r, u);
    UserCascadeComments(t, r, doomed, u);
    UserCascadeLikes(t, r, doomed, u);
    UserCascadeNotifications(t, r, u);
  }

  lemma UserCascadeKeepsOtherPosts(t: Tables, r: Tables, doomed: set<PostId>, u: UserId)
    requires r == WithoutUser(t, u) && doomed == PostIdsBy(t.posts, u)
    ensures PostIds(t.posts) - doomed <= PostIds(r.posts)
  {
    WithoutUserRemoves(t, u);
  }

  lemma UserCascadeUsers(t: Tables, r: Tables, u: UserId)
    requires UsersConsistent(t) && r == WithoutUser(t, u)
    ensures UsersConsistent(r)
  {
    WithoutUserRemoves(t, u);
  }

  lemma UserCascadePosts(t: Tables, r: Tables, u: UserId)
    requires PostsConsistent(t) && r == WithoutUser(t, u)
    ensures PostsConsistent(r)
  {
    WithoutUserRemoves(t, u);
    FilterPairwise(t.posts, (p: Post) => p.author != u, PostKeysDiffer);
  }

  lemma UserCascadeComments(t: Tables, r: Tables, doomed: set<PostId>, u: UserId)
    requires CommentsConsistent(t) && r == WithoutUser(t, u)
    requires doomed == PostIdsBy(t.posts, u) && PostIds(t.posts) - doomed <= PostIds(r.posts)
    ensures CommentsConsistent(r)
  {
    WithoutUserRemoves(t, u);
    FilterPairwise(t.comments, (c: Comment) => c.author != u && c.post !in doomed, CommentKeysDiffer);
    forall c | c in r.comments ensures c.id < r.nextCommentId && c.post in PostIds(r.posts) && c.author in r.users {
      assert c in t.comments;
    }
  }

  lemma UserCascadeLikes(t: Tables, r: Tables, doomed: set<PostId>, u: UserId)
    requires LikesConsistent(t) && r == WithoutUser(t, u)
    requires doomed == PostIdsBy(t.posts, u) && PostIds(t.posts) - doomed <= PostIds(r.posts)
    ensures LikesConsistent(r)
  {
    WithoutUserRemoves(t, u);
    FilterKeepsLikesUnique(t.likes, (l: Like) => l.user != u && l.post !in doomed);
    FilterPairwise(t.likes, (l: Like) => l.user != u && l.post !in doomed, LikeKeysDiffer);
    forall l | l in r.likes ensures l.id < r.nextLikeId && l.user in r.users && l.post in PostIds(r.posts) {
      assert l in t.likes;
    }
  }

  lemma UserCascadeNotifications(t: Tables, r: Tables, u: UserId)
    requires NotificationsConsistent(t) && r == WithoutUser(t, u)
    ensures NotificationsConsistent(r)
  {
    WithoutUserRemoves(t, u);
    FilterPairwise(t.notifications, (n: Notification) => !Involves(n, u), NotificationKeysDiffer);
  }

  class Database {
    var users: map<UserId, User>
    var edges: set<Edge>
    var tokens: map<UserId, TokenKey>
    var posts: seq<Post>
    var comments: seq<Comment>
    var likes: seq<Like>
    var notifications: seq<Notification>
    var nextUserId: nat
    var nextPostId: nat
    var nextCommentId: nat
    var nextLikeId: nat
    var nextNotificationId: nat

    /** The current content of every table. */
    function Snapshot(): Tables
      reads this
    {
      Tables(users, edges, tokens, posts, comments, likes, notifications,
             nextUserId, nextPostId, nextCommentId, nextLikeId, nextNotificationId)
    }

    ghost predicate Valid()
      reads this
    {
      Consistent(Snapshot())
    }

    constructor ()
      ensures Valid()
      ensures users == map[] && edges == {} && tokens == map[]
      ensures posts == [] && comments == [] && likes == [] && notifications == []
    {
      users, edges, tokens := map[], {}, map[];
      posts, comments, likes, notifications := [], [], [], [];
      nextUserId, nextPostId, nextCommentId, nextLikeId, nextNotificationId := 1, 1, 1, 1, 1;
    }

    /** `create_user`: a new user row under the next primary key. */
    method CreateUser(username: string, email: string, bio: string) returns (u: User)
      requires Valid()
      modifies this`users, this`nextUserId
      ensures Valid()
      ensures u == User(old(nextUserId), username, email, bio, None)
      ensures u.id !in old(users) && users == old(users)[u.id := u]
      ensures nextUserId == old(nextUserId) + 1
    {
      u := User(nextUserId, username, email, bio, None);
      users := users[u.id := u];
      nextUserId := nextUserId + 1;
    }

    /**
     * `Token.objects.create(user=u)`: the token's `user` is a one-to-one field, so `u` must not
     * hold one yet; the token's own primary key is its `key`.
     */
    method CreateToken(u: UserId, key: TokenKey)
      requires Valid() && u in users && u !in tokens
      modifies this`tokens
      ensures Valid()
      ensures tokens == old(tokens)[u := key]
    {
      tokens := tokens[u := key];
    }

    /** `a.following.add(b)`: a set insertion, so an existing edge stays single. */
    method AddFollowing(a: UserId, b: UserId)
      requires Valid() && a in users && b in users
      modifies this`edges
      ensures Valid()
      ensures edges == old(edges) + {(a, b)}
    {
      edges := edges + {(a, b)};
    }

    /** `a.following.remove(b)`: removing an absent edge does nothing. */
    method RemoveFollowing(a: UserId, b: UserId)
      requires Valid()
      modifies this`edges
      ensures Valid()
      ensures edges == old(edges) - {(a, b)}
    {
      edges := edges - {(a, b)};
    }

    /** `Notification.objects.create(...)`: appended to the log, unread. */
    method CreateNotification(recipient: UserId, actor: UserId, verb: string, target: Target, now: nat)
      returns (n: Notification)
      requires Valid() && recipient in users && actor in users && |verb| <= MaxVerbLength
      modifies this`notifications, this`nextNotificationId
      ensures Valid()
      ensures n == NewNotification(old(nextNotificationId), recipient, actor, verb, target, now)
      ensures notifications == old(notifications) + [n]
      ensures nextNotificationId == old(nextNotificationId) + 1
    {
      n := NewNotification(nextNotificationId, recipient, actor, verb, target, now);
      notifications := notifications + [n];
      nextNotificationId := nextNotificationId + 1;
    }

    /** `Post.objects.create(...)`: `created_at` and `updated_at` both take the creation time. */
    method CreatePost(author: UserId, title: string, content: string, now: nat) returns (p: Post)
      requires Valid() && author in users && |title| <= MaxTitleLength
      modifies this`posts, this`nextPostId
      ensures Valid()
      ensures p == Post(old(nextPostId), author, title, content, now, now)
      ensures p.id !in PostIds(old(posts)) && posts == old(posts) + [p]
      ensures nextPostId == old(nextPostId) + 1
    {
      p := Post(nextPostId, author, title, content, now, now);
      posts := posts + [p];
      nextPostId := nextPostId + 1;
    }

    /** `Comment.objects.create(...)` on an existing post. */
    method CreateComment(post: PostId, author: UserId, content: string, now: nat) returns (c: Comment)
      requires Valid() && post in PostIds(posts) && author in users
      modifies this`comments, this`nextCommentId
      ensures Valid()
      ensures c == Comment(old(nextCommentId), post, author, content, now, now)
      ensures comments == old(comments) + [c]
      ensures nextCommentId == old(nextCommentId) + 1
    {
      c := Comment(nextCommentId, post, author, content, now, now);
      forall i | 0 <= i < |comments| ensures CommentKeysDiffer(comments[i], c) {
        assert comments[i] in comments;
      }
      PairwiseAppend(comments, c, CommentKeysDiffer);
      comments := comments + [c];
      nextCommentId := nextCommentId + 1;
    }

    /** `Like.objects.create(...)`: refused (None) when the pair already has a row. */
    method CreateLike(user: UserId, post: PostId, now: nat) returns (l: Option<Like>)
      requires Valid() && user in users && post in PostIds(posts)
      modifies this`likes, this`nextLikeId
      ensures Valid()
      ensures l.None? <==> old(HasLiked(likes, user, post))
      ensures l.None? ==> likes == old(likes) && nextLikeId == old(nextLikeId)
      ensures l.Some? ==> l.value == Like(old(nextLikeId), user, post, now)
                          && likes == old(likes) + [l.value]
                          && nextLikeId == old(nextLikeId) + 1
    {
      var row := Like(nextLikeId, user, post, now);
      var inserted := InsertLike(likes, row);
      if inserted.None? {
        l := None;
      } else {
        forall i | 0 <= i < |likes| ensures LikeKeysDiffer(likes[i], row) {
          assert likes[i] in likes;
        }
        PairwiseAppend(likes, row, LikeKeysDiffer);
        likes := inserted.value;
        nextLikeId := nextLikeId + 1;
        l := Some(row);
      }
    }

    /** `post.delete()` with its cascade. */
    method DeletePost(pid: PostId)
      requires Valid()
      modifies this`users, this`edges, this`tokens, this`posts, this`comments, this`likes, this`notifications
      ensures Valid()
      ensures Snapshot() == WithoutPost(old(Snapshot()), pid)
    {
      var before := Snapshot();
      WithoutPostConsistent(before, pid);
      Commit(WithoutPost(before, pid));
    }

    /** `user.delete()` with its cascade. */
    method DeleteUser(u: UserId)
      requires Valid() && u in users
      modifies this`users, this`edges, this`tokens, this`posts, this`comments, this`likes, this`notifications
      ensures Valid()
      ensures Snapshot() == WithoutUser(old(Snapshot()), u)
    {
      var before := Snapshot();
      WithoutUserConsistent(before, u);
      Commit(WithoutUser(before, u));
    }

    /**
     * Writes the rows of every table of `t` back in one step, as a committed transaction does.
     * The id counters are not written, so `t` must carry the current ones.
     */
    method Commit(t: Tables)
      requires Consistent(t)
      requires t.nextUserId == nextUserId && t.nextPostId == nextPostId && t.nextCommentId == nextCommentId
      requires t.nextLikeId == nextLikeId && t.nextNotificationId == nextNotificationId
      modifies this`users, this`edges, this`tokens, this`posts, this`comments, this`likes, this`notifications
      ensures Valid()
      ensures Snapshot() == t
    {
      users, edges, tokens := t.users, t.edges, t.tokens;
      posts, comments, likes, notifications := t.posts, t.comments, t.likes, t.notifications;
    }
  }
}
