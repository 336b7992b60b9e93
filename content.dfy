/** Posts, comments and likes of the social-media API (posts/models.py). */
module Content {
  import opened Outcomes
  import opened Accounts
  import opened Sequences

  type PostId = nat
  type CommentId = nat
  type LikeId = nat

  datatype Post = Post(
    id: PostId,
    author: UserId,
    title: string,
    content: string,
    createdAt: nat,
    updatedAt: nat)

  datatype Comment = Comment(
    id: CommentId,
    post: PostId,
    author: UserId,
    content: string,
    createdAt: nat,
    updatedAt: nat)

  datatype Like = Like(id: LikeId, user: UserId, post: PostId, createdAt: nat)

  /** `title` is a CharField(max_length=255). */
  const MaxTitleLength := 255

  /** The ids of the rows of the post table. */
  function PostIds(posts: seq<Post>): (r: set<PostId>)
    ensures forall id :: id in r <==> exists p :: p in posts && p.id == id
  {
    if posts == [] then {}
    else
      assert posts == [posts[0]] + posts[1..];
      {posts[0].id} + PostIds(posts[1..])
  }

  /** The ids of the posts written by `u` (the reverse accessor `posts`). */
  function PostIdsBy(posts: seq<Post>, u: UserId): (r: set<PostId>)
    ensures forall id :: id in r <==> exists p :: p in posts && p.id == id && p.author == u
    ensures r <= PostIds(posts)
  {
    if posts == [] then {}
    else
      assert posts == [posts[0]] + posts[1..];
      (if posts[0].author == u then {posts[0].id} else {}) + PostIdsBy(posts[1..], u)
  }

  /** `get_object_or_404(Post, id=pid)`: the row with that primary key, if there is one. */
  function FindPost(posts: seq<Post>, pid: PostId): (r: Option<Post>)
    ensures r.Some? ==> r.value in posts && r.value.id == pid
    ensures r.None? <==> pid !in PostIds(posts)
  {
    Find(posts, (p: Post) => p.id == pid)
  }

  /** Two post rows under different primary keys. */
  predicate PostKeysDiffer(a: Post, b: Post) {
    a.id != b.id
  }

  /** With the primary key unique, the lookup finds the one post that has it. */
  lemma {:induction false} FindPostUnique(posts: seq<Post>, p: Post)
    requires Pairwise(posts, PostKeysDiffer) && p in posts
    ensures FindPost(posts, p.id) == Some(p)
  {
    if posts[0] != p {
      var tail := posts[1..];
      assert p in tail;
      assert posts[0].id != p.id by {
        var k :| 0 <= k < |tail| && tail[k] == p;
        assert posts[k + 1] == p;
      }
      assert Pairwise(tail, PostKeysDiffer) by {
        forall i, j | 0 <= i < j < |tail| ensures PostKeysDiffer(tail[i], tail[j]) {
          assert tail[i] == posts[i + 1] && tail[j] == posts[j + 1];
        }
      }
      FindPostUnique(tail, p);
    }
  }

  /** Removing posts only removes the ids of the posts removed. */
  lemma KeptPostIds(posts: seq<Post>, keep: Post -> bool, dropped: set<PostId>)
    requires forall p :: p in posts && !keep(p) ==> p.id in dropped
    ensures PostIds(posts) - dropped <= PostIds(Filter(posts, keep))
  {
  }

  /** `unique_together = ('user', 'post')` between two like rows. */
  predicate DistinctPair(a: Like, b: Like) {
    a.user != b.user || a.post != b.post
  }

  /** At most one like row per (user, post) pair. */
  ghost predicate LikesUnique(likes: seq<Like>) {
    Pairwise(likes, DistinctPair)
  }

  /** Whether `u` has a like row on post `p`. */
  predicate HasLiked(likes: seq<Like>, u: UserId, p: PostId) {
    exists l :: l in likes && l.user == u && l.post == p
  }

  /**
   * Saving a like row: the unique constraint refuses a second row for the same pair
   * (an IntegrityError, here None).
   */
  function InsertLike(likes: seq<Like>, l: Like): (r: Option<seq<Like>>)
    requires LikesUnique(likes)
    ensures r.None? <==> HasLiked(likes, l.user, l.post)
    ensures r.Some? ==> r.value == likes + [l] && LikesUnique(r.value)
  {
    if exists i :: 0 <= i < |likes| && likes[i].user == l.user && likes[i].post == l.post then
      None
    else
      PairwiseAppend(likes, l, DistinctPair);
      Some(likes + [l])
  }

  /** Removing like rows never creates a duplicate pair. */
  lemma FilterKeepsLikesUnique(likes: seq<Like>, keep: Like -> bool)
    requires LikesUnique(likes)
    ensures LikesUnique(Filter(likes, keep))
  {
    FilterPairwise(likes, keep, DistinctPair);
  }

  /** The comments whose post is `p` (the reverse accessor `comments`), in table order. */
  function CommentsOf(comments: seq<Comment>, p: PostId): (r: seq<Comment>)
    ensures forall c :: c in r <==> c in comments && c.post == p
  {
    Filter(comments, (c: Comment) => c.post == p)
  }

  /** Adding a comment raises the comment count of its own post by one and of no other post. */
  lemma CommentsCountAfterAdd(comments: seq<Comment>, c: Comment, p: PostId)
    ensures |CommentsOf(comments + [c], p)| == |CommentsOf(comments, p)| + (if c.post == p then 1 else 0)
  {
    FilterAppend(comments, c, (c: Comment) => c.post == p);
  }

  /** A post id no comment refers to has no comments. */
  lemma NoCommentsOnFreshPost(comments: seq<Comment>, posts: seq<Post>, p: PostId)
    requires forall c :: c in comments ==> c.post in PostIds(posts)
    requires p !in PostIds(posts)
    ensures CommentsOf(comments, p) == []
  {
    FilterNone(comments, (c: Comment) => c.post == p);
  }

  /** `Post.__str__` is the title. */
  function PostStr(p: Post): (s: string)
    ensures s == p.title
  {
    p.title
  }

  /** `Comment.__str__`: "Comment by {author} on {post}". */
  function CommentStr(c: Comment, author: User, post: Post): (s: string)
    requires author.id == c.author && post.id == c.post
    ensures |s| == 11 + |author.username| + 4 + |post.title|
    ensures s[..11] == "Comment by "
    ensures s[11..11 + |author.username|] == author.username
    ensures s[11 + |author.username|..15 + |author.username|] == " on "
    ensures s[15 + |author.username|..] == post.title
  {
    "Comment by " + UserStr(author) + " on " + PostStr(post)
  }

  /** `Like.__str__`: "{user} liked {post}". */
  function LikeStr(l: Like, user: User, post: Post): (s: string)
    requires user.id == l.user && post.id == l.post
    ensures |s| == |user.username| + 7 + |post.title|
    ensures s[..|user.username|] == user.username
    ensures s[|user.username|..|user.username| + 7] == " liked "
    ensures s[|user.username| + 7..] == post.title
  {
    UserStr(user) + " liked " + PostStr(post)
  }
}
