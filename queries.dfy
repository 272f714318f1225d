/**
 * The `db.query(...).filter(...).first()` lookups of main.py, as searches over
 * the rows of a table in store order.
 */
module Queries {
  import opened Wrappers
  import opened Schema

  /** The index of the first element satisfying `p`, or None when no element does. */
  function FirstIndex<T>(s: seq<T>, p: T -> bool): (r: Option<nat>)
    ensures r.Some? ==> r.value < |s| && p(s[r.value])
    ensures r.Some? ==> forall j :: 0 <= j < r.value ==> !p(s[j])
    ensures r.None? ==> forall j :: 0 <= j < |s| ==> !p(s[j])
    decreases |s|
  {
    if s == [] then None
    else if p(s[0]) then Some(0)
    else match FirstIndex(s[1..], p)
      case None => None
      case Some(k) => Some(k + 1)
  }

  /** `filter(User.username == name).first()` */
  function UserByName(users: seq<User>, name: string): (r: Option<nat>)
    ensures r.Some? ==> r.value < |users| && users[r.value].username == name
    ensures r.None? ==> forall j :: 0 <= j < |users| ==> users[j].username != name
  {
    FirstIndex(users, (u: User) => u.username == name)
  }

  /**
   * `filter(User.session_id == value).first()`. Comparing with None compiles to
   * `IS NULL`, so a None value finds the first user that never logged in.
   */
  function UserWithSession(users: seq<User>, value: Option<string>): (r: Option<nat>)
    ensures r.Some? ==> r.value < |users| && users[r.value].sessionId == value
    ensures r.None? ==> forall j :: 0 <= j < |users| ==> users[j].sessionId != value
  {
    FirstIndex(users, (u: User) => u.sessionId == value)
  }

  /** `filter(User.session_id == token).first()` for a string token: a null session never matches. */
  function UserBySession(users: seq<User>, token: string): (r: Option<nat>)
    ensures r.Some? ==> r.value < |users| && users[r.value].sessionId == Some(token)
    ensures r.None? ==> forall j :: 0 <= j < |users| ==> users[j].sessionId != Some(token)
  {
    UserWithSession(users, Some(token))
  }

  /** `filter(User.id == id).first()` */
  function UserById(users: seq<User>, id: int): (r: Option<nat>)
    ensures r.Some? ==> r.value < |users| && users[r.value].id == id
    ensures r.None? <==> !HasUser(users, id)
  {
    FirstIndex(users, (u: User) => u.id == id)
  }

  /** `filter(Post.id == id).first()` */
  function PostById(posts: seq<Post>, id: int): (r: Option<nat>)
    ensures r.Some? ==> r.value < |posts| && posts[r.value].id == id
    ensures r.None? ==> forall k :: 0 <= k < |posts| ==> posts[k].id != id
  {
    FirstIndex(posts, (p: Post) => p.id == id)
  }

  /** Because usernames are unique, a username names exactly the user holding it. */
  lemma NameLookupExact(users: seq<User>, i: nat)
    requires UniqueUsernames(users) && i < |users|
    ensures UserByName(users, users[i].username) == Some(i)
  {
  }

  /** Because non-null sessions are unique, a token resolves to exactly the user holding it. */
  lemma SessionLookupExact(users: seq<User>, i: nat, token: string)
    requires UniqueSessions(users) && i < |users| && users[i].sessionId == Some(token)
    ensures UserBySession(users, token) == Some(i)
  {
  }

  /** Because post ids are unique, an id names exactly the post carrying it. */
  lemma PostLookupExact(posts: seq<Post>, k: nat)
    requires UniquePostIds(posts) && k < |posts|
    ensures PostById(posts, posts[k].id) == Some(k)
  {
  }

  /** Because user ids are unique, an id names exactly the user carrying it. */
  lemma UserIdLookupExact(users: seq<User>, i: nat)
    requires UniqueUserIds(users) && i < |users|
    ensures UserById(users, users[i].id) == Some(i)
  {
  }

  /** A null token resolves to a user exactly when some user has never logged in. */
  lemma NullTokenResolves(users: seq<User>)
    ensures UserWithSession(users, None).Some? <==>
              exists i :: 0 <= i < |users| && users[i].sessionId.None?
  {
  }
}
