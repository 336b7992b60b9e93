/**
 * The account serializers (accounts/serializers.py): registration, login and the profile
 * projection with its two counts.
 */
module Registration {
  import opened Outcomes
  import opened Accounts
  import opened SocialStore
  import opened Text

  /** `username` on Django's user model is a CharField(max_length=150). */
  const MaxUsernameLength := 150
  /** The message a required CharField gives for an empty value. */
  const BlankMessage := "This field may not be blank."
  /** The message of `ProhibitNullCharactersValidator`. */
  const NullMessage := "Null characters are not allowed."
  const InvalidCredentials := "Invalid username or password"

  /**
   * The registration payload. The password is write-only: it is read here and has no place
   * in any output datatype of this module.
   */
  datatype RegisterInput = RegisterInput(
    username: string,
    email: Option<string>,
    password: string,
    bio: Option<string>)

  /** `UserProfileSerializer` output: exactly these six fields. */
  datatype ProfileOut = ProfileOut(
    username: string,
    email: string,
    bio: string,
    profilePicture: Option<string>,
    followersCount: nat,
    followingCount: nat)

  function Profile(u: User, edges: set<Edge>): (p: ProfileOut)
    ensures p.username == u.username && p.email == u.email && p.bio == u.bio
    ensures p.profilePicture == u.profilePicture
    ensures p.followersCount == |Followers(edges, u.id)|
    ensures p.followingCount == |Following(edges, u.id)|
  {
    ProfileOut(u.username, u.email, u.bio, u.profilePicture,
               |Followers(edges, u.id)|, |Following(edges, u.id)|)
  }

  /** A follow that adds a new edge moves the followee's follower count and the follower's following count up by one, and no other count. */
  lemma ProfileCountsAfterFollow(u: User, edges: set<Edge>, a: UserId, b: UserId)
    requires (a, b) !in edges
    ensures Profile(u, edges + {(a, b)}).followersCount
            == Profile(u, edges).followersCount + (if u.id == b then 1 else 0)
    ensures Profile(u, edges + {(a, b)}).followingCount
            == Profile(u, edges).followingCount + (if u.id == a then 1 else 0)
  {
    AddEdgeCounts(edges, a, b, u.id);
  }

  /** An unfollow that removes an edge moves the same two counts down by one. */
  lemma ProfileCountsAfterUnfollow(u: User, edges: set<Edge>, a: UserId, b: UserId)
    requires (a, b) in edges
    ensures Profile(u, edges - {(a, b)}).followersCount
            == Profile(u, edges).followersCount - (if u.id == b then 1 else 0)
    ensures Profile(u, edges - {(a, b)}).followingCount
            == Profile(u, edges).followingCount - (if u.id == a then 1 else 0)
  {
    RemoveEdgeCounts(edges, a, b, u.id);
  }

  predicate UsernameTaken(users: map<UserId, User>, name: string) {
    exists id :: id in users && users[id].username == name
  }

  /**
   * The fields the serializer rejects. Every field is trimmed first, and a NUL character in
   * any of them is refused. `username` is required, at most 150 characters and unique;
   * `password` is required; `email` and `bio` are optional and may be blank.
   */
  function RegisterErrors(users: map<UserId, User>, input: RegisterInput): (r: set<string>)
    ensures "username" in r <==>
              || SpaceBetween(input.username, 0, |input.username|)
              || |Trim(input.username)| > MaxUsernameLength
              || UsernameTaken(users, Trim(input.username))
              || HasNull(input.username)
    ensures "password" in r <==> SpaceBetween(input.password, 0, |input.password|) || HasNull(input.password)
    ensures "email" in r <==> input.email.Some? && HasNull(input.email.value)
    ensures "bio" in r <==> input.bio.Some? && HasNull(input.bio.value)
    ensures r <= {"username", "password", "email", "bio"}
  {
    TrimKeepsNull(input.email.GetOr(""));
    TrimKeepsNull(input.bio.GetOr(""));
    var name := Trim(input.username);
    var badName := RequiredRefused(input.username) || |name| > MaxUsernameLength || UsernameTaken(users, name);
    var badSecret := RequiredRefused(input.password);
    var badEmail := HasNull(Trim(input.email.GetOr("")));
    var badBio := HasNull(Trim(input.bio.GetOr("")));
    FailedFields(badName, badSecret, badEmail, badBio)
  }

  /** The names of the registration fields whose validation failed. */
  function FailedFields(username: bool, password: bool, email: bool, bio: bool): (r: set<string>)
    ensures "username" in r <==> username
    ensures "password" in r <==> password
    ensures "email" in r <==> email
    ensures "bio" in r <==> bio
    ensures r <= {"username", "password", "email", "bio"}
  {
    (if username then {"username"} else {}) + (if password then {"password"} else {})
    + (if email then {"email"} else {}) + (if bio then {"bio"} else {})
  }

  /** A name that differs from a registered one only by surrounding whitespace is taken too. */
  lemma PaddedNameIsTaken(users: map<UserId, User>, email: Option<string>, password: string, bio: Option<string>)
    requires UsernameTaken(users, "bob")
    ensures "username" in RegisterErrors(users, RegisterInput(" bob ", email, password, bio))
  {
    TrimExamples();
  }

  /**
   * `RegisterView.post` with `RegisterSerializer.create`: on valid input, one new user with the
   * trimmed username, email and bio (a missing email or bio is stored as ""), then exactly one
   * token for it.
   */
  method Register(db: Database, input: RegisterInput, tokenKey: TokenKey)
    returns (st: Status, token: Option<TokenKey>, profile: Option<ProfileOut>)
    requires db.Valid()
    modifies db`users, db`nextUserId, db`tokens
    ensures db.Valid()
    ensures st == Created <==> RegisterErrors(old(db.users), input) == {}
    ensures st != Created ==>
              && st == Invalid(RegisterErrors(old(db.users), input))
              && token.None? && profile.None?
              && db.users == old(db.users) && db.tokens == old(db.tokens) && db.nextUserId == old(db.nextUserId)
    ensures st == Created ==>
              var u := User(old(db.nextUserId), Trim(input.username), Trim(input.email.GetOr("")),
                            Trim(input.bio.GetOr("")), None);
              && u.id !in old(db.users) && u.id !in old(db.tokens)
              && db.users == old(db.users)[u.id := u]
              && db.tokens == old(db.tokens)[u.id := tokenKey]
              && token == Some(tokenKey)
              && profile == Some(Profile(u, db.edges))
              && profile.value.followersCount == 0 && profile.value.followingCount == 0
  {
    var errors := RegisterErrors(db.users, input);
    if errors != {} {
      return Invalid(errors), None, None;
    }
    var u := db.CreateUser(Trim(input.username), Trim(input.email.GetOr("")), Trim(input.bio.GetOr("")));
    db.CreateToken(u.id, tokenKey);
    assert Followers(db.edges, u.id) == {};
    assert Following(db.edges, u.id) == {};
    st, token, profile := Created, Some(tokenKey), Some(Profile(u, db.edges));
  }

  /**
   * `LoginSerializer`: both fields are required and trimmed, and a NUL character in either is
   * refused; only then is the trimmed pair handed to the authentication backend, modelled as
   * `authenticate`.
   */
  function ValidateLogin(username: string, password: string, authenticate: (string, string) -> Option<UserId>)
    : (r: Result<UserId>)
    ensures var blank := SpaceBetween(username, 0, |username|) || SpaceBetween(password, 0, |password|);
            var nul := HasNull(username) || HasNull(password);
            && (blank ==> r == Raised(BlankMessage))
            && (!blank && nul ==> r == Raised(NullMessage))
            && (!blank && !nul && authenticate(Trim(username), Trim(password)).None? ==> r == Raised(InvalidCredentials))
            && (r.Value? <==> !blank && !nul && authenticate(Trim(username), Trim(password)).Some?)
            && (r.Value? ==> Some(r.value) == authenticate(Trim(username), Trim(password)))
  {
    TrimKeepsNull(username);
    TrimKeepsNull(password);
    var name, secret := Trim(username), Trim(password);
    if name == "" || secret == "" then Raised(BlankMessage)
    else if HasNull(name) || HasNull(secret) then Raised(NullMessage)
    else match authenticate(name, secret)
      case None => Raised(InvalidCredentials)
      case Some(u) => Value(u)
  }

  /** Logging in with already-trimmed credentials gives the same outcome as with the raw ones. */
  lemma LoginIgnoresPadding(username: string, password: string, authenticate: (string, string) -> Option<UserId>)
    ensures ValidateLogin(Trim(username), Trim(password), authenticate) == ValidateLogin(username, password, authenticate)
  {
    TrimIdempotent(username);
    TrimIdempotent(password);
  }

  /**
   * `LoginView.post`: a failed validation is a 400 carrying its message and changes nothing.
   * Otherwise the user's token is fetched, or created under `freshKey` when the user has none
   * (`Token.objects.get_or_create`), and the response carries it with the user's profile.
   */
  method Login(db: Database, username: string, password: string,
               authenticate: (string, string) -> Option<UserId>, freshKey: TokenKey)
    returns (st: Status, token: Option<TokenKey>, profile: Option<ProfileOut>)
    requires db.Valid()
    requires forall n, p :: authenticate(n, p).Some? ==> authenticate(n, p).value in db.users
    modifies db`tokens
    ensures db.Valid()
    ensures ValidateLogin(username, password, authenticate).Raised? ==>
              && st == BadRequest(ValidateLogin(username, password, authenticate).error)
              && token.None? && profile.None? && db.tokens == old(db.tokens)
    ensures ValidateLogin(username, password, authenticate).Value? ==>
              var u := ValidateLogin(username, password, authenticate).value;
              && st == Ok("")
              && u in db.tokens && token == Some(db.tokens[u])
              && (u in old(db.tokens) ==> db.tokens == old(db.tokens) && token == Some(old(db.tokens)[u]))
              && (u !in old(db.tokens) ==> db.tokens == old(db.tokens)[u := freshKey] && token == Some(freshKey))
              && profile == Some(Profile(db.users[u], db.edges))
  {
    match ValidateLogin(username, password, authenticate)
    case Raised(message) =>
      return BadRequest(message), None, None;
    case Value(u) =>
      if u !in db.tokens {
        db.CreateToken(u, freshKey);
      }
      st, token, profile := Ok(""), Some(db.tokens[u]), Some(Profile(db.users[u], db.edges));
  }
}
