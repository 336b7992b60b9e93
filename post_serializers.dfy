/**
 * `PostSerializer` and `CommentSerializer` (posts/serializers.py): what a client may write and
 * what the API shows. `author`, `post` and `comments_count` are read-only.
 */
module PostSerializers {
  import opened Outcomes
  import opened Accounts
  import opened Content
  import opened Text

  /** A post payload; `author` and `comments_count` may be sent but are never read. */
  datatype PostInput = PostInput(
    title: string,
    content: string,
    author: Option<string>,
    commentsCount: Option<int>)

  /** A comment payload; `post` and `author` may be sent but are never read. */
  datatype CommentInput = CommentInput(
    content: string,
    post: Option<PostId>,
    author: Option<string>)

  /** Exactly the seven fields of `PostSerializer.Meta.fields`. */
  datatype PostOut = PostOut(
    id: PostId,
    author: string,
    title: string,
    content: string,
    commentsCount: nat,
    createdAt: nat,
    updatedAt: nat)

  /** Exactly the six fields of `CommentSerializer.Meta.fields`. */
  datatype CommentOut = CommentOut(
    id: CommentId,
    post: PostId,
    author: string,
    content: string,
    createdAt: nat,
    updatedAt: nat)

  /**
   * Title is a required CharField of at most 255 characters, content a required text field.
   * Both are trimmed first, so a value of only whitespace counts as blank; the length limit and
   * the NUL-character validator then apply to the trimmed value.
   */
  function PostErrors(input: PostInput): (r: set<string>)
    ensures "title" in r <==>
              || SpaceBetween(input.title, 0, |input.title|)
              || |Trim(input.title)| > MaxTitleLength
              || HasNull(input.title)
    ensures "content" in r <==> SpaceBetween(input.content, 0, |input.content|) || HasNull(input.content)
    ensures r <= {"title", "content"}
  {
    TrimKeepsNull(input.title);
    TrimKeepsNull(input.content);
    var title, content := Trim(input.title), Trim(input.content);
    (if title == "" || |title| > MaxTitleLength || HasNull(title) then {"title"} else {})
    + (if content == "" || HasNull(content) then {"content"} else {})
  }

  /**
   * Content is a required text field, trimmed first: only whitespace counts as blank, and a
   * NUL character is refused.
   */
  function CommentErrors(input: CommentInput): (r: set<string>)
    ensures r == {} <==> !SpaceBetween(input.content, 0, |input.content|) && !HasNull(input.content)
    ensures r <= {"content"}
  {
    TrimKeepsNull(input.content);
    var content := Trim(input.content);
    if content == "" || HasNull(content) then {"content"} else {}
  }

  /** A post as shown: the author by username, and the number of comments on this post. */
  function SerializePost(p: Post, author: User, comments: seq<Comment>): (o: PostOut)
    requires author.id == p.author
    ensures o.id == p.id && o.author == author.username
    ensures o.title == p.title && o.content == p.content
    ensures o.commentsCount == |CommentsOf(comments, p.id)|
    ensures o.createdAt == p.createdAt && o.updatedAt == p.updatedAt
  {
    PostOut(p.id, author.username, p.title, p.content, |CommentsOf(comments, p.id)|, p.createdAt, p.updatedAt)
  }

  /** A new comment raises `comments_count` of its own post by one, and of no other post. */
  lemma CommentsCountAfterComment(p: Post, author: User, comments: seq<Comment>, c: Comment)
    requires author.id == p.author
    ensures SerializePost(p, author, comments + [c]).commentsCount
            == SerializePost(p, author, comments).commentsCount + (if c.post == p.id then 1 else 0)
  {
    CommentsCountAfterAdd(comments, c, p.id);
  }

  /** A comment as shown: its post by id and its author by username. */
  function SerializeComment(c: Comment, author: User): (o: CommentOut)
    requires author.id == c.author
    ensures o.id == c.id && o.post == c.post && o.author == author.username
    ensures o.content == c.content && o.createdAt == c.createdAt && o.updatedAt == c.updatedAt
  {
    CommentOut(c.id, c.post, author.username, c.content, c.createdAt, c.updatedAt)
  }
}
