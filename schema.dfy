/**
 * The two tables of the store (models.py): users and posts, and the integrity
 * constraints the relational schema imposes on them.
 */
module Schema {
  import opened Wrappers

  /** Creation time of a post; the real clock value is abstracted to an integer. */
  datatype Timestamp = Timestamp(utc: int)

  /** A row of the users table. `sessionId` is the nullable, unique session column. */
  datatype User = User(id: int, username: string, hashedPassword: string, sessionId: Option<string>)

  /** A row of the posts table. `replyTo` is the nullable reference to another post's id. */
  datatype Post = Post(id: int, content: string, timestamp: Timestamp, ownerId: int,
                       edited: bool, replyTo: Option<int>)

  /** A post as the store inserts it: `edited` takes its column default, false. */
  function NewPost(id: int, content: string, ownerId: int, replyTo: Option<int>, now: Timestamp): (p: Post)
    ensures !p.edited && p.timestamp == now
    ensures p.id == id && p.content == content && p.ownerId == ownerId && p.replyTo == replyTo
  {
    Post(id, content, now, ownerId, false, replyTo)
  }

  /** The primary key of users is unique. */
  predicate UniqueUserIds(users: seq<User>) {
    forall i, j :: 0 <= i < j < |users| ==> users[i].id != users[j].id
  }

  /** The username column is unique. */
  predicate UniqueUsernames(users: seq<User>) {
    forall i, j :: 0 <= i < j < |users| ==> users[i].username != users[j].username
  }

  /** The session column is unique among non-null values; any number of users may hold none. */
  predicate UniqueSessions(users: seq<User>) {
    forall i, j :: 0 <= i < j < |users| && users[i].sessionId.Some? ==> users[i].sessionId != users[j].sessionId
  }

  /** The primary key of posts is unique. */
  predicate UniquePostIds(posts: seq<Post>) {
    forall i, j :: 0 <= i < j < |posts| ==> posts[i].id != posts[j].id
  }

  /** Some user has primary key `id`. */
  predicate HasUser(users: seq<User>, id: int) {
    exists i :: 0 <= i < |users| && users[i].id == id
  }

  /** The foreign key owner_id refers to an existing user. */
  predicate OwnersExist(users: seq<User>, posts: seq<Post>) {
    forall k :: 0 <= k < |posts| ==> HasUser(users, posts[k].ownerId)
  }

  /**
   * Every constraint of the schema that the store enforces. Under it no two distinct
   * rows share a key, a username or a non-null session, whichever order they come in.
   */
  predicate Integrity(users: seq<User>, posts: seq<Post>)
    ensures Integrity(users, posts) ==>
              forall i, j :: 0 <= i < |users| && 0 <= j < |users| && i != j ==>
                && users[i].id != users[j].id
                && users[i].username != users[j].username
                && (users[i].sessionId.Some? ==> users[i].sessionId != users[j].sessionId)
    ensures Integrity(users, posts) ==>
              forall k, m :: 0 <= k < |posts| && 0 <= m < |posts| && k != m ==> posts[k].id != posts[m].id
  {
    && UniqueUserIds(users)
    && UniqueUsernames(users)
    && UniqueSessions(users)
    && UniquePostIds(posts)
    && OwnersExist(users, posts)
  }

  /** Inserting a user with a fresh id, a fresh username and no session keeps every constraint. */
  lemma AppendUserKeepsIntegrity(users: seq<User>, posts: seq<Post>, u: User)
    requires Integrity(users, posts)
    requires forall i :: 0 <= i < |users| ==> users[i].id != u.id && users[i].username != u.username
    requires u.sessionId.None?
    ensures Integrity(users + [u], posts)
  {
    var users' := users + [u];
    forall k | 0 <= k < |posts| ensures HasUser(users', posts[k].ownerId) {
      var i :| 0 <= i < |users| && users[i].id == posts[k].ownerId;
      assert users'[i] == users[i];
    }
  }

  /** Giving user i a session that no other user holds keeps every constraint. */
  lemma SetSessionKeepsIntegrity(users: seq<User>, posts: seq<Post>, i: nat, token: string)
    requires Integrity(users, posts)
    requires i < |users|
    requires forall j :: 0 <= j < |users| && j != i ==> users[j].sessionId != Some(token)
    ensures Integrity(users[i := users[i].(sessionId := Some(token))], posts)
  {
    var users' := users[i := users[i].(sessionId := Some(token))];
    forall k | 0 <= k < |posts| ensures HasUser(users', posts[k].ownerId) {
      var j :| 0 <= j < |users| && users[j].id == posts[k].ownerId;
      assert users'[j].id == users[j].id;
    }
  }

  /** Inserting a post with a fresh id owned by an existing user keeps every constraint. */
  lemma AppendPostKeepsIntegrity(users: seq<User>, posts: seq<Post>, p: Post)
    requires Integrity(users, posts)
    requires forall k :: 0 <= k < |posts| ==> posts[k].id != p.id
    requires HasUser(users, p.ownerId)
    ensures Integrity(users, posts + [p])
  {
  }

  /** Rewriting a post's content and edited flag keeps every constraint. */
  lemma EditPostKeepsIntegrity(users: seq<User>, posts: seq<Post>, k: nat, content: string)
    requires Integrity(users, posts)
    requires k < |posts|
    ensures Integrity(users, posts[k := posts[k].(content := content, edited := true)])
  {
  }
}
