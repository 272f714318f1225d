/**
 * The forum's request handlers (main.py): register, login, create_post,
 * get_posts and edit_post, over an in-memory store of users and posts.
 */
module Forum {
  import opened Wrappers
  import opened Schema
  import opened Queries

  /** Request bodies of the plain endpoints. */
  datatype RegisterForm = RegisterForm(username: string, password: string)
  datatype LoginForm = LoginForm(username: string, password: string)
  datatype PostForm = PostForm(sessionId: string, content: string, replyTo: Option<int>)
  datatype EditPostForm = EditPostForm(sessionId: string, postId: int, newContent: string)

  /** An untyped JSON object body: each field the handlers may read is absent, null or given. */
  datatype Payload = Payload(username: Field<string>, password: Field<string>,
                             sessionId: Field<string>, content: Field<string>,
                             replyTo: Field<int>, postId: Field<int>, newContent: Field<string>)

  /** The shaped post every post-producing handler returns. */
  datatype PostRecord = PostRecord(id: int, content: string, ownerId: int, username: string,
                                   timestamp: Timestamp, replyTo: Option<int>, edited: bool)

  /** The JSON bodies of successful responses. */
  datatype Response =
    | Status(status: string)
    | SessionToken(sessionId: string)
    | PostOut(post: PostRecord)
    | PostList(posts: seq<PostRecord>)

  /** What a handler raises instead of returning. */
  datatype Error =
    | HttpError(statusCode: int, detail: string)  // HTTPException
    | KeyMissing(key: string)                      // KeyError on a dict lookup
    | ValidationError                              // a form built from a payload lacking a field
    | IntegrityViolation                           // a commit rejected by a unique constraint
    | MalformedMessage                             // a websocket message that is not a JSON object
    | NotSerializable                              // a reply holding a datetime, which json.dumps rejects
    | OwnerMissing                                 // AttributeError: a post whose owner lookup found no user

  const RegisteredStatus := "User registered successfully"
  const UsernameTaken := HttpError(400, "Username already registered")
  const BadCredentials := HttpError(400, "Incorrect username or password")
  const InvalidSession := HttpError(400, "Invalid session_id")
  const PostNotFound := HttpError(404, "Post not found")
  const NotOwner := HttpError(403, "Not authorized to edit this post")

  /** The response record of post `p`, written by the user named `username`. */
  function Shape(p: Post, username: string): (r: PostRecord)
    ensures Post(r.id, r.content, r.timestamp, r.ownerId, r.edited, r.replyTo) == p
    ensures r.username == username
  {
    PostRecord(p.id, p.content, p.ownerId, username, p.timestamp, p.replyTo, p.edited)
  }

  /** The user the login query finds, provided the supplied digest matches the stored one. */
  function Authenticate(users: seq<User>, name: string, digest: string): (r: Option<nat>)
    ensures r.Some? ==> r.value < |users| && users[r.value].username == name
                        && users[r.value].hashedPassword == digest
    ensures UniqueUsernames(users) ==>
              (r.Some? <==> exists i :: 0 <= i < |users| && users[i].username == name
                                         && users[i].hashedPassword == digest)
  {
    match UserByName(users, name)
    case None => None
    case Some(i) => if users[i].hashedPassword == digest then Some(i) else None
  }

  /** The username of the owner of `p`, looked up by the owner's id. */
  function OwnerName(users: seq<User>, p: Post): (name: string)
    requires HasUser(users, p.ownerId)
    ensures exists i :: 0 <= i < |users| && users[i].id == p.ownerId && users[i].username == name
  {
    users[UserById(users, p.ownerId).value].username
  }

  /** The get_posts list: one record per stored post, in store order. */
  function Feed(users: seq<User>, posts: seq<Post>): (r: seq<PostRecord>)
    requires OwnersExist(users, posts)
    ensures |r| == |posts|
    ensures forall k :: 0 <= k < |posts| ==>
              r[k] == Shape(posts[k], r[k].username)
              && exists i :: 0 <= i < |users| && users[i].id == posts[k].ownerId
                             && users[i].username == r[k].username
  {
    seq(|posts|, k requires 0 <= k < |posts| => Shape(posts[k], OwnerName(users, posts[k])))
  }

  /** The contents of the store: both tables and the next keys to assign. */
  datatype Tables = Tables(users: seq<User>, posts: seq<Post>, nextUserId: int, nextPostId: int)

  /** The schema constraints hold, and every key lies below the next key to be assigned. */
  predicate Consistent(t: Tables) {
    && Integrity(t.users, t.posts)
    && (forall i :: 0 <= i < |t.users| ==> t.users[i].id < t.nextUserId)
    && (forall k :: 0 <= k < |t.posts| ==> t.posts[k].id < t.nextPostId)
  }

  /** The in-memory store: the two tables and the id counters the store assigns keys from. */
  class Store {
    var users: seq<User>
    var posts: seq<Post>
    var nextUserId: int
    var nextPostId: int
    /** The password digest (SHA-256 hex digest in the source), left uninterpreted. */
    const hash: string -> string

    /** The store's contents as a value. */
    function Snap(): (t: Tables)
      reads this
      ensures t.users == users && t.posts == posts
      ensures t.nextUserId == nextUserId && t.nextPostId == nextPostId
    {
      Tables(users, posts, nextUserId, nextPostId)
    }

    /** The object invariant: the contents are consistent. */
    ghost predicate Valid()
      reads this
    {
      Consistent(Snap())
    }

    constructor (hash: string -> string)
      ensures Valid() && users == [] && posts == [] && this.hash == hash
      ensures nextUserId == 1 && nextPostId == 1
    {
      this.hash := hash;
      users, posts := [], [];
      nextUserId, nextPostId := 1, 1;
    }

    /** register: insert a user with the digest of the password and no session. */
    method Register(form: RegisterForm) returns (r: Result<Response, Error>)
      requires Valid()
      modifies this
      ensures Valid()
      ensures posts == old(posts) && nextPostId == old(nextPostId)
      ensures old(UserByName(users, form.username)).Some? ==>
                r == Err(UsernameTaken) && users == old(users) && nextUserId == old(nextUserId)
      ensures old(UserByName(users, form.username)).None? ==>
                && r == Ok(Status(RegisteredStatus))
                && users == old(users) + [User(old(nextUserId), form.username, hash(form.password), None)]
                && nextUserId == old(nextUserId) + 1
    {
      var candidate := User(nextUserId, form.username, hash(form.password), None);
      // The commit is rejected by the unique index on username, and rolled back.
      if UserByName(users, candidate.username).Some? {
        return Err(UsernameTaken);
      }
      AppendUserKeepsIntegrity(users, posts, candidate);
      users := users + [candidate];
      nextUserId := nextUserId + 1;
      r := Ok(Status(RegisteredStatus));
    }

    /**
     * login: on matching credentials, store `token` (the freshly generated session id)
     * as the user's session, replacing any previous one. A token another user already
     * holds makes the commit fail on the unique session column.
     */
    method Login(form: LoginForm, token: string) returns (r: Result<Response, Error>)
      requires Valid()
      modifies this
      ensures Valid()
      ensures posts == old(posts) && nextUserId == old(nextUserId) && nextPostId == old(nextPostId)
      ensures var who := Authenticate(old(users), form.username, hash(form.password));
              && (who.None? ==> r == Err(BadCredentials) && users == old(users))
              && (who.Some? && old(HeldByOther(users, who.value, token)) ==>
                    r == Err(IntegrityViolation) && users == old(users))
              && (who.Some? && !old(HeldByOther(users, who.value, token)) ==>
                    && r == Ok(SessionToken(token))
                    && users == old(users)[who.value := old(users)[who.value].(sessionId := Some(token))])
    {
      var found := UserByName(users, form.username);
      if found.None? || users[found.value].hashedPassword != hash(form.password) {
        return Err(BadCredentials);
      }
      var i := found.value;
      if HeldByOther(users, i, token) {
        return Err(IntegrityViolation);
      }
      SetSessionKeepsIntegrity(users, posts, i, token);
      users := users[i := users[i].(sessionId := Some(token))];
      r := Ok(SessionToken(token));
    }

    /** create_post: insert a post owned by the session's user; reply_to is stored unchecked. */
    method CreatePost(form: PostForm, now: Timestamp) returns (r: Result<Response, Error>)
      requires Valid()
      modifies this
      ensures Valid()
      ensures users == old(users) && nextUserId == old(nextUserId)
      ensures var who := old(UserBySession(users, form.sessionId));
              && (who.None? ==> r == Err(InvalidSession) && posts == old(posts) && nextPostId == old(nextPostId))
              && (who.Some? ==>
                    var p := NewPost(old(nextPostId), form.content, users[who.value].id, form.replyTo, now);
                    && posts == old(posts) + [p]
                    && nextPostId == old(nextPostId) + 1
                    && r == Ok(PostOut(Shape(p, users[who.value].username))))
    {
      var who := UserBySession(users, form.sessionId);
      if who.None? {
        return Err(InvalidSession);
      }
      var owner := users[who.value];
      var p := NewPost(nextPostId, form.content, owner.id, form.replyTo, now);
      assert users[who.value].id == p.ownerId;
      AppendPostKeepsIntegrity(users, posts, p);
      posts := posts + [p];
      nextPostId := nextPostId + 1;
      r := Ok(PostOut(Shape(p, owner.username)));
    }

    /**
     * get_posts: the shaped list of every post, for any caller whose session resolves.
     * The body is an untyped dict, so `session_id` may be null; the query then matches
     * any user who never logged in.
     */
    method GetPosts(data: Payload) returns (r: Result<Response, Error>)
      requires Valid()
      ensures data.sessionId.Absent? ==> r == Err(KeyMissing("session_id"))
      ensures !data.sessionId.Absent? && UserWithSession(users, data.sessionId.Nullable()).None? ==>
                r == Err(InvalidSession)
      ensures !data.sessionId.Absent? && UserWithSession(users, data.sessionId.Nullable()).Some? ==>
                r == Ok(PostList(Feed(users, posts)))
    {
      if data.sessionId.Absent? {
        return Err(KeyMissing("session_id"));
      }
      var who := UserWithSession(users, data.sessionId.Nullable());
      if who.None? {
        return Err(InvalidSession);
      }
      r := Ok(PostList(Feed(users, posts)));
    }

    /**
     * edit_post: replace the content of the post named by `postId` (the path parameter,
     * not the form's own post_id) and mark it edited; only its owner may do so.
     */
    method EditPost(postId: int, form: EditPostForm) returns (r: Result<Response, Error>)
      requires Valid()
      modifies this
      ensures Valid()
      ensures users == old(users) && nextUserId == old(nextUserId) && nextPostId == old(nextPostId)
      ensures var who := old(UserBySession(users, form.sessionId));
              var target := old(PostById(posts, postId));
              && (who.None? ==> r == Err(InvalidSession) && posts == old(posts))
              && (who.Some? && target.None? ==> r == Err(PostNotFound) && posts == old(posts))
              && (who.Some? && target.Some? && old(posts[target.value].ownerId) != users[who.value].id ==>
                    r == Err(NotOwner) && posts == old(posts))
              && (who.Some? && target.Some? && old(posts[target.value].ownerId) == users[who.value].id ==>
                    && posts == old(posts)[target.value := old(posts[target.value]).(content := form.newContent, edited := true)]
                    && r == Ok(PostOut(Shape(posts[target.value], users[who.value].username))))
    {
      var who := UserBySession(users, form.sessionId);
      if who.None? {
        return Err(InvalidSession);
      }
      var target := PostById(posts, postId);
      if target.None? {
        return Err(PostNotFound);
      }
      var k := target.value;
      if posts[k].ownerId != users[who.value].id {
        return Err(NotOwner);
      }
      EditPostKeepsIntegrity(users, posts, k, form.newContent);
      posts := posts[k := posts[k].(content := form.newContent, edited := true)];
      r := Ok(PostOut(Shape(posts[k], users[who.value].username)));
    }
  }

  /** Some user other than user i holds `token` as its session. */
  predicate HeldByOther(users: seq<User>, i: nat, token: string) {
    match UserBySession(users, token)
    case None => false
    case Some(j) => j != i
  }

  /**
   * After user i's session is overwritten with `token`, its previous token resolves to
   * no one, and `token` resolves to user i unless another user already held it.
   */
  lemma {:induction false} LoginRevokesPrevious(users: seq<User>, i: nat, token: string)
    requires UniqueSessions(users) && i < |users|
    requires users[i].sessionId.Some? && users[i].sessionId != Some(token)
    ensures var users' := users[i := users[i].(sessionId := Some(token))];
            && UserBySession(users', users[i].sessionId.value).None?
            && (!HeldByOther(users, i, token) ==> UserBySession(users', token) == Some(i))
  {
    var users' := users[i := users[i].(sessionId := Some(token))];
    var previous := users[i].sessionId.value;
    forall j | 0 <= j < |users'| ensures users'[j].sessionId != Some(previous) {
      if j < i {
        assert users[j].sessionId != users[i].sessionId;
      } else if j > i {
        assert users[i].sessionId != users[j].sessionId;
      }
    }
    if !HeldByOther(users, i, token) {
      forall j | 0 <= j < |users| && j != i ensures users'[j].sessionId != Some(token) {
        if users[j].sessionId == Some(token) {
          SessionLookupExact(users, j, token);
        }
      }
      SessionLookupExact(users', i, token);
    }
  }

  /** A token another user holds is exactly what HeldByOther detects, given unique sessions. */
  lemma HeldByOtherExact(users: seq<User>, i: nat, token: string)
    requires UniqueSessions(users) && i < |users|
    ensures HeldByOther(users, i, token) <==>
              exists j :: 0 <= j < |users| && j != i && users[j].sessionId == Some(token)
  {
  }

  /** The list after a post is created is the old list with that post's record appended. */
  lemma FeedAfterCreate(users: seq<User>, posts: seq<Post>, p: Post, owner: nat)
    requires OwnersExist(users, posts) && UniqueUserIds(users)
    requires owner < |users| && users[owner].id == p.ownerId
    ensures OwnersExist(users, posts + [p])
    ensures Feed(users, posts + [p]) == Feed(users, posts) + [Shape(p, users[owner].username)]
  {
  }

  /** Editing post k changes its record in the list and no other record. */
  lemma FeedAfterEdit(users: seq<User>, posts: seq<Post>, k: nat, content: string)
    requires OwnersExist(users, posts) && k < |posts|
    ensures var posts' := posts[k := posts[k].(content := content, edited := true)];
            && OwnersExist(users, posts')
            && Feed(users, posts') == Feed(users, posts)[k := Feed(users, posts)[k].(content := content, edited := true)]
  {
  }
}
