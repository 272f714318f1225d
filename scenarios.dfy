/**
 * Client runs of the handlers on a fresh store, proved from the handlers'
 * contracts alone: the request sequences the forum's behaviour is judged by.
 */
module Scenarios {
  import opened Wrappers
  import opened Schema
  import opened Queries
  import opened Forum

  /** Registering the same username twice: the second attempt fails and one user remains. */
  method RegisterTwice(hash: string -> string, name: string, password1: string, password2: string)
    returns (first: Result<Response, Error>, second: Result<Response, Error>, users: seq<User>)
    ensures first == Ok(Status(RegisteredStatus)) && second == Err(UsernameTaken)
    ensures users == [User(1, name, hash(password1), None)]
  {
    var store := new Store(hash);
    first := store.Register(RegisterForm(name, password1));
    assert store.users[0].username == name;
    second := store.Register(RegisterForm(name, password2));
    users := store.users;
  }

  /** Login with a wrong password and with an unknown username fail identically. */
  method LoginFailuresAlike(hash: string -> string, name: string, password: string,
                            wrong: string, stranger: string, token: string)
    returns (badPassword: Result<Response, Error>, unknownUser: Result<Response, Error>)
    requires hash(wrong) != hash(password) && stranger != name
    ensures badPassword == unknownUser == Err(BadCredentials)
  {
    var store := new Store(hash);
    var _ := store.Register(RegisterForm(name, password));
    badPassword := store.Login(LoginForm(name, wrong), token);
    unknownUser := store.Login(LoginForm(stranger, password), token);
  }

  /** A second login replaces the first session: posting with the first token then fails. */
  method SecondLoginRevokesFirst(hash: string -> string, name: string, password: string,
                                 token1: string, token2: string, content: string, now: Timestamp)
    returns (stale: Result<Response, Error>, current: Result<Response, Error>)
    requires token1 != token2
    ensures stale == Err(InvalidSession)
    ensures current.Ok? && current.value.PostOut? && current.value.post.username == name
  {
    var store := StoreWithSession(hash, name, password, token1);
    NameLookupExact(store.users, 0);
    var _ := store.Login(LoginForm(name, password), token2);
    assert store.users == [User(1, name, hash(password), Some(token2))];
    assert store.users[0].sessionId != Some(token1);
    stale := store.CreatePost(PostForm(token1, content, None), now);
    current := store.CreatePost(PostForm(token2, content, None), now);
  }

  /** A fresh store after `author` registers and logs in with `token`. */
  method StoreWithSession(hash: string -> string, author: string, password: string, token: string)
    returns (store: Store)
    ensures fresh(store) && store.Valid() && store.hash == hash
    ensures store.users == [User(1, author, hash(password), Some(token))]
    ensures store.posts == []
    ensures store.nextUserId == 2 && store.nextPostId == 1
  {
    store := new Store(hash);
    var _ := store.Register(RegisterForm(author, password));
    assert store.users == [User(1, author, hash(password), None)];
    NameLookupExact(store.users, 0);
    var _ := store.Login(LoginForm(author, password), token);
  }

  /** A fresh store after `author` registers, logs in with `token` and writes one post. */
  method StoreWithOnePost(hash: string -> string, author: string, password: string, token: string,
                          content: string, replyTo: Option<int>, now: Timestamp)
    returns (store: Store)
    ensures fresh(store) && store.Valid() && store.hash == hash
    ensures store.users == [User(1, author, hash(password), Some(token))]
    ensures store.posts == [Post(1, content, now, 1, false, replyTo)]
    ensures store.nextUserId == 2 && store.nextPostId == 2
  {
    store := StoreWithSession(hash, author, password, token);
    SessionLookupExact(store.users, 0, token);
    var _ := store.CreatePost(PostForm(token, content, replyTo), now);
  }

  /** A created post shows up in the list, unedited, with its author's username. */
  method CreateThenList(hash: string -> string, name: string, password: string, token: string,
                        content: string, replyTo: Option<int>, now: Timestamp)
    returns (listed: Result<Response, Error>)
    ensures listed == Ok(PostList([PostRecord(1, content, 1, name, now, replyTo, false)]))
  {
    var store := StoreWithOnePost(hash, name, password, token, content, replyTo, now);
    SessionLookupExact(store.users, 0, token);
    listed := store.GetPosts(Payload(Absent, Absent, Given(token), Absent, Absent, Absent, Absent));
    UserIdLookupExact(store.users, 0);
    assert Feed(store.users, store.posts)[0] == Shape(store.posts[0], name);
    assert Feed(store.users, store.posts) == [PostRecord(1, content, 1, name, now, replyTo, false)];
  }

  /**
   * A null session_id in the get_posts body is compared as IS NULL: once some user has
   * registered without logging in, the list is returned to a caller holding no token.
   */
  method NullTokenLists(hash: string -> string, author: string, password: string, token: string,
                        content: string, now: Timestamp, idle: string)
    returns (listed: Result<Response, Error>)
    requires idle != author
    ensures listed == Ok(PostList([PostRecord(1, content, 1, author, now, None, false)]))
  {
    var store := StoreWithOnePost(hash, author, password, token, content, None, now);
    assert UserByName(store.users, idle).None?;
    var _ := store.Register(RegisterForm(idle, password));
    assert store.users[1].sessionId.None?;
    listed := store.GetPosts(Payload(Absent, Absent, Null, Absent, Absent, Absent, Absent));
    UserIdLookupExact(store.users, 0);
    assert Feed(store.users, store.posts)[0] == Shape(store.posts[0], author);
    assert Feed(store.users, store.posts) == [PostRecord(1, content, 1, author, now, None, false)];
  }

  /** Another user's edit is refused and leaves the post as it was. */
  method EditByOtherRefused(hash: string -> string, author: string, other: string, password: string,
                            authorToken: string, otherToken: string, now: Timestamp)
    returns (intrusion: Result<Response, Error>, posts: seq<Post>)
    requires author != other && authorToken != otherToken
    ensures intrusion == Err(NotOwner)
    ensures posts == [Post(1, "original", now, 1, false, None)]
  {
    var store := StoreWithOnePost(hash, author, password, authorToken, "original", None, now);
    assert UserByName(store.users, other).None?;
    var _ := store.Register(RegisterForm(other, password));
    assert store.users == [User(1, author, hash(password), Some(authorToken)), User(2, other, hash(password), None)];
    NameLookupExact(store.users, 1);
    assert Authenticate(store.users, other, hash(password)) == Some(1);
    assert UserBySession(store.users, otherToken).None?;
    var _ := store.Login(LoginForm(other, password), otherToken);
    assert store.users == [User(1, author, hash(password), Some(authorToken)), User(2, other, hash(password), Some(otherToken))];
    SessionLookupExact(store.users, 1, otherToken);
    PostLookupExact(store.posts, 0);
    intrusion := store.EditPost(1, EditPostForm(otherToken, 1, "hijack"));
    posts := store.posts;
  }

  /**
   * The owner's edits replace the content and keep the post marked edited; the post
   * edited is the one the path names, whatever post_id the form carries.
   */
  method OwnerEditsTwice(hash: string -> string, author: string, password: string,
                         token: string, now: Timestamp, formPostId: int)
    returns (firstEdit: Result<Response, Error>, secondEdit: Result<Response, Error>)
    ensures firstEdit == Ok(PostOut(PostRecord(1, "v2", 1, author, now, None, true)))
    ensures secondEdit == Ok(PostOut(PostRecord(1, "v3", 1, author, now, None, true)))
  {
    var store := StoreWithOnePost(hash, author, password, token, "v1", None, now);
    SessionLookupExact(store.users, 0, token);
    PostLookupExact(store.posts, 0);
    firstEdit := store.EditPost(1, EditPostForm(token, formPostId, "v2"));
    assert store.posts == [Post(1, "v2", now, 1, true, None)];
    PostLookupExact(store.posts, 0);
    secondEdit := store.EditPost(1, EditPostForm(token, formPostId, "v3"));
  }
}
