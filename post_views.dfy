/**
 * `PostViewSet`, `CommentViewSet` and `StandardResultsSetPagination` (posts/views.py): the
 * list orderings, the page arithmetic, and the two `perform_create` hooks that force the
 * author (and, for comments, the post) regardless of what the client sent.
 */
module PostViews {
  import opened Outcomes
  import opened Accounts
  import opened Content
  import opened Sequences
  import opened SocialStore
  import opened PostSerializers
  import opened Text

  const DefaultPageSize := 10
  const MaxPageSize := 50

  /**
   * The page size for a request: a positive `page_size` query value, capped at 50; anything
   * else (absent, zero, negative, or not an integer, all `None` or non-positive here) gives 10.
   */
  function PageSize(requested: Option<int>): (n: nat)
    ensures 1 <= n <= MaxPageSize
    ensures requested.None? ==> n == DefaultPageSize
    ensures requested.Some? && requested.value <= 0 ==> n == DefaultPageSize
    ensures requested.Some? && 0 < requested.value <= MaxPageSize ==> n == requested.value
    ensures requested.Some? && requested.value > MaxPageSize ==> n == MaxPageSize
  {
    match requested
    case Some(k) => if k <= 0 then DefaultPageSize else if k > MaxPageSize then MaxPageSize else k
    case None => DefaultPageSize
  }

  /**
   * Page `page` (1-based) of `items`: None (404) when the page number is below 1 or past
   * the last page; the first page exists even when `items` is empty.
   */
  function Paginate<T>(items: seq<T>, page: int, size: nat): (r: Option<seq<T>>)
    requires size >= 1
    ensures r.Some? <==> page == 1 || (page > 1 && (page - 1) * size < |items|)
    ensures r.Some? ==> |r.value| <= size
    ensures r.Some? ==> r.value <= items[(page - 1) * size..]
  {
    if page < 1 || (page > 1 && (page - 1) * size >= |items|) then None
    else
      var start := (page - 1) * size;
      var end := if start + size <= |items| then start + size else |items|;
      Some(items[start..end])
  }

  /** Position k splits into k / size full pages and an offset below `size`. */
  lemma PageOfPosition(k: nat, size: nat)
    requires size >= 1
    ensures (k / size + 1 - 1) * size + k % size == k
    ensures k % size < size
  {
  }

  /** Every item is on exactly the page its position says, at the offset its position says. */
  lemma ItemOnItsPage<T>(items: seq<T>, size: nat, k: nat)
    requires size >= 1 && k < |items|
    ensures var r := Paginate(items, k / size + 1, size);
            r.Some? && k % size < |r.value| && r.value[k % size] == items[k]
  {
    PageOfPosition(k, size);
    var page, m := k / size + 1, k % size;
    var start := (page - 1) * size;
    assert start + m == k && m < size;
    var end := if start + size <= |items| then start + size else |items|;
    assert Paginate(items, page, size) == Some(items[start..end]);
    assert items[start..end][m] == items[k];
  }

  /** Newest first: `order_by('-created_at')`. */
  ghost predicate NewestFirst(posts: seq<Post>) {
    forall i, j :: 0 <= i < j < |posts| ==> posts[i].createdAt >= posts[j].createdAt
  }

  /** Oldest first: `order_by('created_at')`. */
  ghost predicate OldestFirst(comments: seq<Comment>) {
    forall i, j :: 0 <= i < j < |comments| ==> comments[i].createdAt <= comments[j].createdAt
  }

  /** The post list: every post, newest first. */
  function PostList(posts: seq<Post>): (r: seq<Post>)
    ensures NewestFirst(r)
    ensures multiset(r) == multiset(posts)
  {
    SortBy(posts, (p: Post) => -(p.createdAt as int))
  }

  /**
   * `CommentViewSet.get_queryset`: the comments of the URL's post, oldest first. A post id
   * with no post behind it gives an empty list, not a 404.
   */
  function CommentList(comments: seq<Comment>, postId: PostId): (r: seq<Comment>)
    ensures OldestFirst(r)
    ensures multiset(r) == multiset(CommentsOf(comments, postId))
    ensures forall c :: c in r <==> c in comments && c.post == postId
  {
    var r := SortBy(CommentsOf(comments, postId), (c: Comment) => c.createdAt);
    assert forall c :: c in r <==> c in multiset(r);
    r
  }

  /**
   * A comment looked up through the same queryset: found only under its own post, so a
   * comment id asked for under another post is a 404.
   */
  function FindComment(comments: seq<Comment>, postId: PostId, pk: CommentId): (r: Option<Comment>)
    ensures r.Some? ==> r.value in comments && r.value.post == postId && r.value.id == pk
    ensures r.None? <==> forall c :: c in comments ==> c.post != postId || c.id != pk
  {
    var hits := Filter(CommentList(comments, postId), (c: Comment) => c.id == pk);
    if hits == [] then None else Some(hits[0])
  }

  /**
   * `PostViewSet.create`: authentication, then validation of title and content, then
   * `perform_create`, which makes the requester the author whatever the payload says. The
   * stored title and content are the trimmed ones.
   */
  method CreatePost(db: Database, requester: Option<UserId>, input: PostInput, now: nat)
    returns (st: Status, out: Option<PostOut>)
    requires db.Valid()
    requires requester.Some? ==> requester.value in db.users
    modifies db`posts, db`nextPostId
    ensures db.Valid()
    ensures requester.None? ==> st == NotAuthenticated
    ensures requester.Some? && PostErrors(input) != {} ==> st == Invalid(PostErrors(input))
    ensures st == Created <==> requester.Some? && PostErrors(input) == {}
    ensures st != Created ==> out.None? && db.posts == old(db.posts) && db.nextPostId == old(db.nextPostId)
    ensures st == Created ==>
              var p := Post(old(db.nextPostId), requester.value, Trim(input.title), Trim(input.content), now, now);
              && p.id !in PostIds(old(db.posts))
              && db.posts == old(db.posts) + [p]
              && out == Some(PostOut(p.id, db.users[requester.value].username, p.title, p.content, 0, now, now))
  {
    if requester.None? {
      return NotAuthenticated, None;
    }
    var errors := PostErrors(input);
    if errors != {} {
      return Invalid(errors), None;
    }
    var author := db.users[requester.value];
    NoCommentsOnFreshPost(db.comments, db.posts, db.nextPostId);
    var p := db.CreatePost(author.id, Trim(input.title), Trim(input.content), now);
    st, out := Created, Some(SerializePost(p, author, db.comments));
  }

  /**
   * `CommentViewSet.create`: authentication, then validation of the content, then
   * `perform_create`, which looks the URL's post up (404) and binds the comment to it and
   * to the requester. The stored content is the trimmed one.
   */
  method CreateComment(db: Database, requester: Option<UserId>, postId: PostId, input: CommentInput, now: nat)
    returns (st: Status, out: Option<CommentOut>)
    requires db.Valid()
    requires requester.Some? ==> requester.value in db.users
    modifies db`comments, db`nextCommentId
    ensures db.Valid()
    ensures requester.None? ==> st == NotAuthenticated
    ensures requester.Some? && CommentErrors(input) != {} ==> st == Invalid(CommentErrors(input))
    ensures requester.Some? && CommentErrors(input) == {} && postId !in PostIds(db.posts) ==> st == NotFound
    ensures st == Created <==> requester.Some? && CommentErrors(input) == {} && postId in PostIds(db.posts)
    ensures st != Created ==>
              out.None? && db.comments == old(db.comments) && db.nextCommentId == old(db.nextCommentId)
    ensures st == Created ==>
              var c := Comment(old(db.nextCommentId), postId, requester.value, Trim(input.content), now, now);
              && db.comments == old(db.comments) + [c]
              && out == Some(CommentOut(c.id, postId, db.users[requester.value].username, c.content, now, now))
  {
    if requester.None? {
      return NotAuthenticated, None;
    }
    var errors := CommentErrors(input);
    if errors != {} {
      return Invalid(errors), None;
    }
    if postId !in PostIds(db.posts) {
      return NotFound, None;
    }
    var author := db.users[requester.value];
    var c := db.CreateComment(postId, author.id, Trim(input.content), now);
    st, out := Created, Some(SerializeComment(c, author));
  }

  /**
   * `PostViewSet.destroy`: authentication, the lookup (404), the object permission (403,
   * decided by `mayChange`), then the delete with its cascade.
   */
  method DestroyPost(db: Database, requester: Option<UserId>, pid: PostId, mayChange: (UserId, Post) -> bool)
    returns (st: Status)
    requires db.Valid()
    modifies db`users, db`edges, db`tokens, db`posts, db`comments, db`likes, db`notifications
    ensures db.Valid()
    ensures requester.None? ==> st == NotAuthenticated
    ensures requester.Some? && pid !in PostIds(old(db.posts)) ==> st == NotFound
    ensures st == NoContent <==>
              requester.Some? && FindPost(old(db.posts), pid).Some?
              && mayChange(requester.value, FindPost(old(db.posts), pid).value)
    ensures requester.Some? && FindPost(old(db.posts), pid).Some? ==>
              !mayChange(requester.value, FindPost(old(db.posts), pid).value) ==> st == Forbidden
    ensures st == NoContent ==> db.Snapshot() == WithoutPost(old(db.Snapshot()), pid)
    ensures st != NoContent ==> db.Snapshot() == old(db.Snapshot())
  {
    if requester.None? {
      return NotAuthenticated;
    }
    var post := FindPost(db.posts, pid);
    if post.None? {
      return NotFound;
    }
    if !mayChange(requester.value, post.value) {
      return Forbidden;
    }
    db.DeletePost(pid);
    st := NoContent;
  }
}
