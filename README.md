# Social-media API and library app, modelled in Dafny

This project models the logic of two Django tutorial apps.

The **social-media API** has users with a directed follow graph. Every accepted follow leaves
a notification. It also has posts, comments and likes with their uniqueness and cascade-delete
rules. The serializers project these records into responses: profile counts, comment counts,
and read-only author and post fields. The post views order lists, paginate them, and force the
author of whatever a client creates.

The **library app** has three role predicates and the pages they guard. Three
permission-gated views add, edit and delete books. Three sample lookups turn "no such row"
into an empty result.

The ORM tables are the fields of two classes: `SocialStore.Database` and `Catalog.Store`.
Each view becomes a method over those classes. A method states its outcome, a `Status` or a
`Page`, and the new content of every table it may write.

- Each class keeps an invariant `Valid()`. In `SocialStore.Database` it is a predicate over a
  snapshot of the tables: foreign keys resolve, primary keys are unique and below the next one
  handed out, likes are unique per (user, post) pair, and verbs and titles are within their
  column bounds. In `Catalog.Store`, book keys are unique and below the next one handed out,
  and every book's author is a stored author.
- The cascades are pure functions on that snapshot, `WithoutPost` and `WithoutUser`. Lemmas
  prove that the cascades preserve the invariant.
- The request user is `Option<UserId>` (None when anonymous), and clock values are
  parameters.
- The authentication backend is a function parameter, and so is the post-ownership check.
- Token keys are opaque strings supplied by the caller.

Modules, in dependency order:

- `outcomes.dfy`: `Option`, `Result` and the response `Status`.
- `text.dfy`: Python's `str.strip()`, which the framework applies to every submitted text
  field before validating and storing it.
- `sequences.dfy`: `Filter` (a queryset filter) and an insertion sort (`order_by`), with their
  lemmas.
- `accounts.dfy`: users, follow edges, `Following`/`Followers`, and how counts move under one
  edge.
- `notifications.dfy`: the notification record, its target as a tagged union, and its string
  form.
- `content.dfy`: posts, comments and likes, the like uniqueness rule, comment counts, and
  string forms.
- `social_store.dfy`: the tables, their invariant, the cascades, and the `Database` class.
- `follow_views.dfy`: the follow and unfollow views.
- `registration.dfy`: registration, login validation and the profile projection.
- `post_serializers.dfy`: post and comment input validation and output.
- `post_views.dfy`: page size, pagination, list orderings, and post and comment creation and
  deletion.
- `catalog.dfy`: the library catalogue records and the `Store` class.
- `library_queries.dfy`: the three sample lookups.
- `library_views.dfy`: the role predicates, the role pages and the book views.

Behaviour of the code worth noting:

- Creating a comment sends no notification (social_media_api/posts/views.py:54-61).
- A repeat follow appends a second notification. This happens even though the edge set does
  not change (social_media_api/accounts/views.py:121-130).
- The only self-action that is refused is following oneself.

## Model

| member | source | states |
|---|---|---|
| Text.Trim | social_media_api/accounts/serializers.py:50-51 | the trimmed value is a slice of the input with only whitespace cut off at either end; it starts and ends with a non-space character, and it is empty exactly when the input is all whitespace |
| Text.TrimUnique | social_media_api/accounts/serializers.py:50-51 | any slice that has only whitespace around it and non-space characters at both of its ends is the trimmed value |
| Text.TrimIdempotent | social_media_api/accounts/serializers.py:50-51 | trimming a trimmed value changes nothing |
| Text.TrimExamples | social_media_api/accounts/serializers.py:50-51 | " bob " trims to "bob", "  " to the empty string, and "a b" keeps its inner space |
| Text.TrimKeepsNull | social_media_api/accounts/serializers.py:50-51 | the trimmed value holds a NUL character exactly when the raw value does, so the NUL validator's verdict does not depend on trimming |
| Text.RequiredRefused | social_media_api/accounts/serializers.py:50-51 | a required text field is refused exactly when its value is only whitespace or holds a NUL character |
| Accounts.Following | social_media_api/accounts/models.py:19-24 | `u` follows `v` exactly when the directed pair (u, v) is stored |
| Accounts.Followers | social_media_api/accounts/models.py:22 | the followers of `u` are exactly the users whose following set contains `u` |
| Accounts.FollowersAreReverse | social_media_api/accounts/models.py:19-24 | `v` is a follower of `u` exactly when `u` is in the following set of `v`: `followers` is the reverse side of the same relation |
| Accounts.AddEdgeFollowers | social_media_api/accounts/models.py:19-24 | adding the edge (a, b) adds `a` to the followers of `b` and changes no other follower set |
| Accounts.AddEdgeFollowing | social_media_api/accounts/models.py:19-24 | adding the edge (a, b) adds `b` to the following set of `a` and changes no other following set |
| Accounts.FollowingIsDirected | social_media_api/accounts/models.py:19-24 | one edge (1, 2) does not give its reverse: 2 does not follow 1, and 1 has no followers |
| Accounts.SchemaAllowsEmptyAndSelfEdges | social_media_api/accounts/models.py:19-24 | an empty following set is allowed, and the schema can hold a self-edge |
| Accounts.AddEdgeCounts | social_media_api/accounts/views.py:121 | a new edge (a, b) raises b's follower count and a's following count by one; every other user's followers and followings stay the same |
| Accounts.RemoveEdgeCounts | social_media_api/accounts/views.py:151 | removing an existing edge (a, b) lowers the same two counts by one; nobody else's sets change |
| Notifications.NewNotification | social_media_api/notifications/models.py:25-36 | a created notification is unread, carries the creation time, has a verb of at most 255 characters, and carries the recipient, actor, verb and target it was given |
| Notifications.NotificationStr | social_media_api/notifications/models.py:38-39 | the string form is the actor's username, one space, then the verb |
| Accounts.UserStr | social_media_api/accounts/models.py:26-27 | a user is shown by its username alone |
| Content.FindPost | social_media_api/posts/views.py:56 | the lookup finds a stored post with the key, and finds nothing exactly when no post has that key |
| Content.FindPostUnique | social_media_api/posts/views.py:56 | with unique primary keys, looking up a stored post's key returns that post |
| Content.InsertLike | social_media_api/posts/models.py:69-70 | a second like for the same (user, post) is refused; otherwise the row is appended and at most one like per pair remains |
| Content.FilterKeepsLikesUnique | social_media_api/posts/models.py:69-70 | deleting like rows never creates a duplicate pair |
| Content.CommentsOf | social_media_api/posts/models.py:32-36 | the comments of post `p` are exactly the stored comments whose post is `p` |
| Content.CommentsCountAfterAdd | social_media_api/posts/models.py:32-36 | a new comment adds one to the comments of its own post and to no other post |
| Content.NoCommentsOnFreshPost | social_media_api/posts/models.py:32-36 | a post id that no comment references has an empty comment list |
| Content.CommentStr | social_media_api/posts/models.py:47-48 | "Comment by ", then the author's username, then " on ", then the post's title |
| Content.PostStr | social_media_api/posts/models.py:23-24 | a post is shown by its title alone |
| Content.LikeStr | social_media_api/posts/models.py:72-73 | the user's username, then " liked ", then the post's title |
| SocialStore.WithoutPost | social_media_api/posts/models.py:32-66 | deleting a post removes exactly that post, its comments and its likes; every other table is unchanged |
| SocialStore.WithoutPostConsistent | social_media_api/posts/models.py:32-66 | after the post cascade, no comment or like points at a missing post, and likes stay unique |
| SocialStore.WithoutUser | social_media_api/posts/models.py:12-16 | deleting a user removes its row and its token and leaves every id counter where it was |
| SocialStore.WithoutUserRemoves | social_media_api/posts/models.py:12-66 | the user cascade removes every edge touching the user, its posts, every comment and like by the user or on those posts, and every notification where the user is recipient or actor, and keeps every other row |
| SocialStore.WithoutUserConsistent | social_media_api/notifications/models.py:14-23 | after the user cascade, every remaining foreign key still resolves |
| SocialStore.Database.CreateUser | social_media_api/accounts/serializers.py:32-37 | the new user gets a fresh key and the given fields and has no picture; no existing user changes |
| SocialStore.Database.CreateToken | social_media_api/accounts/serializers.py:40 | the user gains exactly one token; a user who already holds one cannot get a second |
| SocialStore.Database.AddFollowing | social_media_api/accounts/views.py:121 | the edge set becomes the old set plus (a, b) |
| SocialStore.Database.RemoveFollowing | social_media_api/accounts/views.py:151 | the edge set becomes the old set minus (a, b) |
| SocialStore.Database.CreateNotification | social_media_api/accounts/views.py:124-130 | the log gains exactly one new notification at its end, under a fresh key |
| SocialStore.Database.CreatePost | social_media_api/posts/views.py:33-35 | the post table gains one post with a fresh key, the given author, and both timestamps set from the one `now` parameter |
| SocialStore.Database.CreateComment | social_media_api/posts/views.py:58-61 | the comment table gains one comment bound to the given post and author |
| SocialStore.Database.CreateLike | social_media_api/posts/models.py:69-70 | a like is stored exactly when the pair has none yet; otherwise nothing changes |
| SocialStore.Database.DeletePost | social_media_api/posts/models.py:32-66 | deleting any post id, present or not, leaves the post cascade of the old tables, and the invariant holds |
| SocialStore.Database.DeleteUser | social_media_api/posts/models.py:12-16 | the new tables are the user cascade of the old ones, and the invariant holds |
| SocialStore.Database.Commit | social_media_api/posts/models.py:12-16 | writes a consistent set of tables that carries the current id counters back in one step; afterwards the snapshot is exactly those tables and the invariant holds |
| FollowViews.FollowUser | social_media_api/accounts/views.py:111-135 | 401 when anonymous. 404 for an unknown user. A self-follow gets 400 "You cannot follow yourself." and changes nothing. Otherwise the edge is added (a set union), exactly one notification (target user as recipient, requester as actor, "started following you") is appended, and 200 names the user. Stores with no self-edges keep none |
| FollowViews.UnfollowUser | social_media_api/accounts/views.py:148-156 | 401 when anonymous, 404 for an unknown user. Otherwise the edge is removed, even when absent or a self-edge, with no notification and 200 naming the user; the target is then not followed |
| FollowViews.FollowTwice | social_media_api/accounts/views.py:121-130 | following the same user twice stores one edge but appends two notifications, both to the followee |
| Registration.Profile | social_media_api/accounts/serializers.py:69-93 | the profile has exactly username, email, bio, picture and two counts: the number of followers and the size of the following set. There is no password field |
| Registration.ProfileCountsAfterFollow | social_media_api/accounts/serializers.py:75-82 | after a new follow, only the followee's follower count and the follower's following count move, each by one |
| Registration.ProfileCountsAfterUnfollow | social_media_api/accounts/serializers.py:75-82 | after an unfollow of an existing edge, the same two counts go down by one |
| Registration.RegisterErrors | social_media_api/accounts/serializers.py:21-25 | every field is trimmed first. A field holding a NUL character is rejected. `username` is also rejected when only whitespace, longer than 150 characters once trimmed, or taken by its trimmed form; `password` when only whitespace. `email` and `bio` are optional and may be blank, so a NUL character is their only modelled rejection |
| Registration.PaddedNameIsTaken | social_media_api/accounts/serializers.py:21-25 | when "bob" is registered, " bob " is refused as a taken username |
| Registration.Register | social_media_api/accounts/serializers.py:27-42 | invalid input gives 400 naming the failing fields and changes nothing. Valid input creates one user with the trimmed username, email and bio ("" when absent) and exactly one token for it, and returns 201 with a profile whose counts are 0 |
| Registration.ValidateLogin | social_media_api/accounts/serializers.py:50-66 | a field of only whitespace is rejected as blank, then a field holding a NUL character with "Null characters are not allowed."; only otherwise does the trimmed pair go to the backend, where a refusal raises "Invalid username or password", and an acceptance yields the authenticated user |
| Registration.LoginIgnoresPadding | social_media_api/accounts/serializers.py:50-61 | logging in with the trimmed credentials has the same outcome as with the raw ones |
| Registration.Login | social_media_api/accounts/views.py:67-79 | a failed validation is a 400 carrying its message and changes nothing. Otherwise the response is 200 with the user's stored token, created under the fresh key only when the user had none (so a later login returns the same token), and the user's profile |
| PostSerializers.PostErrors | social_media_api/posts/models.py:17-18 | title and content are trimmed first: a title is rejected exactly when it is only whitespace, longer than 255 characters once trimmed, or holds a NUL character; content exactly when it is only whitespace or holds a NUL character |
| PostSerializers.CommentErrors | social_media_api/posts/models.py:42 | a comment is rejected exactly when its content is only whitespace (the empty string included) or holds a NUL character |
| PostSerializers.SerializePost | social_media_api/posts/serializers.py:8-29 | output is the seven listed fields, the author as username, and `comments_count` as the number of comments on this post |
| PostSerializers.CommentsCountAfterComment | social_media_api/posts/serializers.py:14-17 | a new comment raises the shown count of its own post by one and of no other post |
| PostSerializers.SerializeComment | social_media_api/posts/serializers.py:32-49 | output is the six listed fields, the post as its id and the author as username |
| PostViews.PageSize | social_media_api/posts/views.py:10-16 | the size is always between 1 and 50: 10 by default or for a non-positive request, the request itself up to 50, and 50 above that |
| PostViews.Paginate | social_media_api/posts/views.py:10-16 | page 1 always exists. A later page exists exactly when it starts before the end. A page holds at most `size` items, taken in order from its start |
| PostViews.ItemOnItsPage | social_media_api/posts/views.py:14-16 | item k is on page k / size + 1 at position k mod size |
| PostViews.PostList | social_media_api/posts/views.py:24 | the post list is a permutation of the posts, newest first |
| PostViews.CommentList | social_media_api/posts/views.py:47-52 | the comment list holds exactly the comments of the URL's post, oldest first; a missing post gives an empty list |
| PostViews.FindComment | social_media_api/posts/views.py:51-52 | a comment is found only under its own post; asked for under another post it is not found |
| PostViews.CreatePost | social_media_api/posts/views.py:33-35 | 401 when anonymous; 400 naming the bad fields. Otherwise 201 with a new post whose author is the requester, whatever the payload says, whose title and content are the trimmed input, and whose shown comment count is 0 |
| PostViews.CreateComment | social_media_api/posts/views.py:54-61 | 401 when anonymous, then 400 for blank content or content holding a NUL character, then 404 when the URL's post is missing, each changing nothing. Otherwise 201 with a comment bound to the URL's post and the requester, holding the trimmed content |
| PostViews.DestroyPost | social_media_api/posts/views.py:19-26 | 401, then 404 for an unknown post, then 403 whenever the ownership check refuses an existing post. Otherwise 204, and the tables become the post cascade of the old ones; every refusal changes nothing |
| Catalog.FindBook | django-models/LibraryProject/relationship_app/views.py:201 | the lookup finds a stored book with the key, and nothing exactly when no book has it |
| Catalog.UpdateBook | django-models/LibraryProject/relationship_app/views.py:204-206 | the row with the key takes the form's title and author; every other row is unchanged |
| Catalog.RemoveBook | django-models/LibraryProject/relationship_app/views.py:233-234 | exactly the rows with the key are gone |
| Catalog.UnlinkBook | django-models/LibraryProject/relationship_app/views.py:234 | every library loses its link to the deleted book and keeps the rest |
| Catalog.UpdateKeepsKeys | django-models/LibraryProject/relationship_app/views.py:204-206 | an update keeps the primary keys distinct and below the next key |
| Catalog.UpdateThenFind | django-models/LibraryProject/relationship_app/views.py:201-206 | after an update, looking the key up gives the updated book |
| Catalog.RemoveKeepsKeys | django-models/LibraryProject/relationship_app/views.py:233-234 | after a delete, keys stay distinct and the deleted key is found no more |
| Catalog.Store.InsertBook | django-models/LibraryProject/relationship_app/views.py:176-178 | the table gains one book under a fresh key; its author must be a stored author, so every book's author foreign key still resolves |
| Catalog.Store.SaveBook | django-models/LibraryProject/relationship_app/views.py:204-206 | the table becomes the update of the old one, and with the new author a stored one, every author foreign key still resolves |
| Catalog.Store.DeleteBook | django-models/LibraryProject/relationship_app/views.py:233-234 | the book row and its library links are gone |
| LibraryQueries.Get | django-models/LibraryProject/relationship_app/query_samples.py:22 | `get` finds nothing exactly when no row matches. A found row is the only matching one. Two or more matches raise |
| LibraryQueries.BooksByAuthor | django-models/LibraryProject/relationship_app/query_samples.py:11-35 | without an exception, the result is exactly the books of an author with that name; an unknown name gives the empty result. It raises exactly when two authors share the name |
| LibraryQueries.BooksInLibrary | django-models/LibraryProject/relationship_app/query_samples.py:38-62 | without an exception, the result is exactly the books linked to a library with that name; an unknown name gives the empty result. It raises exactly when two libraries share the name |
| LibraryQueries.LibrarianFor | django-models/LibraryProject/relationship_app/query_samples.py:65-88 | a returned librarian belongs to the named library. The result is None when no library has the name, or when the single library with it has no librarian; None implies there is no librarian; two libraries with the name raise |
| LibraryQueries.LibrarianForOneLibrary | django-models/LibraryProject/relationship_app/query_samples.py:75-88 | when exactly one library has the name, its single linked librarian is returned, no linked librarian gives None, and two or more raise `MultipleObjectsReturned` |
| LibraryViews.RoleOf | django-models/LibraryProject/relationship_app/views.py:103-115 | each role predicate holds exactly when the profile's role is that exact string; a visitor with no profile has none; at most one holds |
| LibraryViews.IsAdmin | django-models/LibraryProject/relationship_app/views.py:103-105 | false for a visitor without a profile; otherwise true exactly when the role is the string "Admin" |
| LibraryViews.IsLibrarian | django-models/LibraryProject/relationship_app/views.py:108-110 | false for a visitor without a profile; otherwise true exactly when the role is the string "Librarian" |
| LibraryViews.IsMember | django-models/LibraryProject/relationship_app/views.py:113-115 | false for a visitor without a profile; otherwise true exactly when the role is the string "Member" |
| LibraryViews.Guarded | django-models/LibraryProject/relationship_app/views.py:120 | the page renders exactly when the test passes and otherwise redirects to login |
| LibraryViews.AdminView | django-models/LibraryProject/relationship_app/views.py:120-132 | only a visitor with role "Admin" gets the admin page; others go to login |
| LibraryViews.LibrarianView | django-models/LibraryProject/relationship_app/views.py:135-147 | only a visitor with role "Librarian" gets the librarian page; others go to login |
| LibraryViews.MemberView | django-models/LibraryProject/relationship_app/views.py:150-162 | only a visitor with role "Member" gets the member page; others go to login |
| LibraryViews.AtMostOneRolePage | django-models/LibraryProject/relationship_app/views.py:103-162 | a visitor who reaches one role page is sent to login by the other two |
| LibraryViews.FormValid | django-models/LibraryProject/relationship_app/forms.py:5-10 | the form is valid exactly when the title is not only whitespace, holds no NUL character, and the chosen author is one of the existing authors |
| LibraryViews.AddBook | django-models/LibraryProject/relationship_app/views.py:167-190 | 403 without `can_add_book`. A POST with a valid form appends one new book with the stripped title and redirects to the list. Anything else renders the form and saves nothing |
| LibraryViews.EditBook | django-models/LibraryProject/relationship_app/views.py:193-219 | 403 without `can_change_book`, then 404 for an unknown key. A valid POST gives that book the stripped title and the chosen author, which is then found with the new values. Any other permitted request on an existing book renders the form and leaves the table unchanged |
| LibraryViews.DeleteBook | django-models/LibraryProject/relationship_app/views.py:222-241 | 403 without `can_delete_book`, then 404 for an unknown key. Only a POST deletes the book and its library links. Any other method renders the confirmation page and changes nothing |

## Left out

- HTTP rendering, templates, flash messages and JSON encoding are left out. A response is its
  status or page kind and, where the view sets one, its detail text.
- Authentication machinery is a parameter:
  - token lookup, password hashing, `authenticate`, `login` and `logout`;
  - the credential check is the `authenticate` function parameter of `ValidateLogin`;
  - a token key is an opaque string supplied by the caller.
- `ProfileView.get`/`put` and the library app's `register`, `list_books` and
  `LibraryDetailView` are left out. Each only hands a framework serializer, form or queryset to
  a response or template and has no logic of its own.
- The library app's `user_login` and `user_logout` are left out. They only call the session
  `login`/`logout` and set flash messages, which belong to the authentication machinery above.
- The post and comment retrieve, update and partial-update routes and comment deletion are
  left out. They are framework defaults with no code of their own here. Two parts are
  modelled: the comment routes' lookup scoped to the URL's post, `PostViews.FindComment`, and
  post deletion, for its cascade.
- `SearchFilter` on title and content is left out: its matching rules belong to the framework.
- Like and unlike endpoints and the feed are not part of this model. Only the like uniqueness
  rule and the cascades are modelled.
- `IsOwnerOrReadOnly` (posts/permissions.py) is not part of this model. `DestroyPost` takes
  its verdict as the `mayChange` parameter.
- relationship_app/models.py is not part of this model. Author, book, library and librarian
  fields are the ones the views, the form and the queries use.
- LibraryViews.FormValid: the book title's maximum length is unknown, so only a title that is
  not blank once stripped and an existing author make a valid form.
- Timestamps are caller-supplied naturals, and one `now` parameter fills both `created_at` and
  `updated_at`. `auto_now_add` and `auto_now` each read the clock in their own `pre_save`, so
  the two stored values can differ slightly.
- `profile_picture` uploads and storage are left out. A new user has no picture.
- Registration.RegisterErrors: does not check the email format or its 254-character limit, or
  the username character validator (letters, digits and `@.+-_`), since these are framework
  validators over Unicode character classes.
- Registration.Login: a rejected login is a 400 with one validation message. The field the
  framework files it under (`username`, `password` or `non_field_errors`) is not kept. When
  one field is blank and the other holds a NUL character, the framework reports both; the
  model keeps the blank message.
- Registration.Register: stores the trimmed username and email as they are. `create_user` also
  applies Unicode NFKC normalisation to the username and lower-cases the email's domain part,
  which needs Unicode tables this model does not carry.
- Whitespace is the fixed character set of `Text.IsSpace`, the characters Python 3's
  `str.isspace` accepts. A later Unicode version that adds a space character is not followed.
- PostViews.PageSize: a `page_size` value that is not an integer is passed in as `None`, so it
  falls back to 10, as the framework does.
- PostViews.Paginate: the page number is an integer. The framework's "last" keyword and
  non-integer page numbers, which give 404, are left out.
- Deleting a `ContentType` row, and the cascade it would start, is left out. A notification's
  generic target is not a foreign key, so deleting a post or comment leaves its notifications
  in place.
- Concurrency is left out: two identical requests racing each other are not modelled. The like
  uniqueness rule is modelled as the constraint it is.
- The `__main__` sample-data block and the `print` output of query_samples.py are left out.
- URL routing, admin registration, form widgets and labels, the `api_project` Book API and the
  `bookshelf` views are left out. They are framework pass-through.
