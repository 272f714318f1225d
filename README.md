# Forum store and request handlers, modelled in Dafny

This project models the core of a small forum backend. Its store has two tables.
Users have an id, a unique username, a password digest and a nullable, unique
session token. Posts have an id, content, a creation timestamp, an owner, an
edited flag and an optional reply-to reference. The system has five request
handlers:

- register
- login (issues a session token)
- create_post
- get_posts
- edit_post (only the owner may edit)

It also has a WebSocket endpoint. That endpoint reads JSON messages, decodes an
`action` field and calls the same handlers.

Files and modules:

- `wrappers.dfy` (`Wrappers`): `Option` for nullable columns, `Result` for handler outcomes, and `Field` for a JSON key that is absent, null or given.
- `schema.dfy` (`Schema`): the `User` and `Post` rows. The schema's constraints are written as the predicate `Integrity`, beside lemmas showing that each kind of store update keeps it.
- `queries.dfy` (`Queries`): the `filter(...).first()` lookups as first-match searches. Lemmas show that, under the unique constraints, each lookup finds exactly the row that holds the key.
- `forum.dfy` (`Forum`): the class `Store`. Its fields are the two tables and the id counters. It has one method per handler. Each method's contract gives the result and the whole new state on every path, and keeps the invariant `Valid()`. Lemmas next to it cover session revocation and the post list.
- `transport.dfy` (`Transport`): the WebSocket endpoint.
  - `Decode` is the action-to-handler mapping, including the form construction.
  - `Apply` is each handler as a function of the store's contents; `Handle` is proved to agree with it. The handlers appear twice on purpose. The `Store` methods update the class in place, as the handlers update the database. The `*Step` functions are the same handlers as values, because a function such as `Receive` or `Run` cannot call a method. `Handle`'s contract ties the two together.
  - `Receive` is one iteration of the receive loop, including the reply's serialisation.
  - `Loop` is the loop's shape for any per-message behaviour, and `Run` is that loop with `Receive`.
  - `Serve` is the imperative receive loop of one connection, proved equal to `Run`.
- `scenarios.dfy` (`Scenarios`): client runs on a fresh store. Each is proved from the handler contracts alone: a duplicate registration, login failures, a second login, create followed by list, a null session token, and edits by another user and by the owner.

Things the source calls outside itself become parameters:

- The password digest is the store's `hash` function. It is deterministic but otherwise uninterpreted.
- The new session token is the `token` argument of `Login`.
- The creation time is the `now` argument of `CreatePost`.
- On the WebSocket path, each received message carries the token and time the environment would supply (`Arrival`).
- Row ids come from counters that exceed every id already assigned, because the storage engine is not part of this model.

Behaviour of the code that the model keeps:

- The WebSocket loop ends at its first exception. The `except` at main.py:181 is outside the `while` at main.py:157, so the first exception sends one `{"error": ...}` reply and leaves the loop. Exceptions can come from decoding, from a handler, or from sending the reply.
- `send_json` serialises with `json.dumps`, which rejects the `datetime` in a post record. So over the WebSocket, create_post and edit_post commit their change and then fail to send it. get_posts fails the same way once any post exists. In each case the loop ends with an error reply.
- `get_posts` takes an untyped dict (main.py:112), so `session_id` may be JSON null. The query at main.py:113 then compares the column with NULL, which matches a user who never logged in. The post list is then returned to a caller who holds no token.
- A token that another user already holds is not excluded by a precondition. It is modelled as the commit that the unique session column rejects: `Err(IntegrityViolation)` with the store unchanged. The handler does not catch that error.
- `get_posts` reads `.username` of each post's owner lookup (main.py:121). If no owner were found, this would raise; the model reports that as `OwnerMissing`. Under the schema's constraints it cannot happen.

## Model

| member | source | states |
|---|---|---|
| Schema.NewPost | models.py:19-23 | a new post row takes the given id, content, owner and reply-to; its timestamp is the insertion time and it starts unedited |
| Schema.Integrity | models.py:8-24 | the constraints hold: no two distinct users share an id, a username or a non-null session, and no two distinct posts share an id |
| Schema.AppendUserKeepsIntegrity | models.py:6-11 | inserting a user with a fresh id, an unused username and a null session keeps unique ids, usernames and sessions, and keeps every post's owner present |
| Schema.SetSessionKeepsIntegrity | models.py:11 | giving one user a session token that no other user holds keeps every schema constraint |
| Schema.AppendPostKeepsIntegrity | models.py:17-20 | inserting a post with a fresh id and an existing owner keeps every schema constraint |
| Schema.EditPostKeepsIntegrity | main.py:138-139 | rewriting one post's content and edited flag keeps every schema constraint |
| Queries.FirstIndex | main.py:83 | `.first()` returns the first row in store order that satisfies the filter, or none exactly when no row does |
| Queries.UserByName | main.py:83 | the user found has the username asked for; none is found only when no user has it |
| Queries.UserWithSession | main.py:113 | the user found has exactly the session value asked for, null included; none is found only when no user has it |
| Queries.UserBySession | main.py:93 | the user found holds the token; no user with a null session matches; none is found only when no user holds the token |
| Queries.UserById | main.py:121 | the user found has the id asked for; none is found exactly when no user has that id |
| Queries.PostById | main.py:133 | the post found has the id asked for; none is found only when no post has it |
| Queries.NameLookupExact | models.py:9 | with unique usernames, looking up a user's username finds that very user |
| Queries.SessionLookupExact | models.py:11 | with unique non-null sessions, a token resolves to the one user holding it |
| Queries.PostLookupExact | models.py:17 | with unique post ids, looking up a post's id finds that very post |
| Queries.UserIdLookupExact | models.py:8 | with unique user ids, looking up a user's id finds that very user |
| Queries.NullTokenResolves | main.py:113 | a null session_id resolves to some user exactly when some user has no session |
| Forum.Shape | main.py:100-108 | the record returned for a post (the same dict at main.py:117-125 and main.py:142-150) carries every field of the post unchanged, plus the username given |
| Forum.Authenticate | main.py:83-84 | login accepts user i only if i has the username and the stored digest equals the digest of the supplied password; with unique usernames, such a user exists exactly when login accepts |
| Forum.OwnerName | main.py:121 | the name returned belongs to a user whose id is the post's owner id |
| Forum.Feed | main.py:116-126 | one record per stored post, in store order, carrying that post's fields and its owner's username |
| Forum.Store.constructor | main.py:24 | a fresh database: the store starts with empty tables, both id counters at 1 and the given digest function |
| Forum.Store.Register | main.py:70-79 | a taken username fails with 400 "Username already registered" and leaves the store unchanged; otherwise exactly one user is appended, holding the digest of the password and no session; posts never change |
| Forum.Store.Login | main.py:81-89 | an unknown username and a wrong password give the same 400 error and change nothing; on a match the user's session becomes the new token and is returned, and no other user or post changes; a token held by another user is rejected by the unique column with nothing changed |
| Forum.Store.CreatePost | main.py:91-109 | an unresolved token fails with 400 "Invalid session_id" and adds nothing; otherwise exactly one post is appended, owned by the resolved user, unedited, with reply-to as given and no existence check, and the record returned carries the owner's username; users never change |
| Forum.Store.GetPosts | main.py:111-126 | a body without session_id raises a key error; a session_id that matches no user, compared as IS NULL when it is null, fails with 400; otherwise the result is the full post list; the store is not modified |
| Forum.Store.EditPost | main.py:128-151 | an invalid session gives 400, then a missing post gives 404, then a caller who is not the owner gives 403, each leaving the store unchanged; on success only the post named by the path parameter changes, in content and edited = true, keeping id, owner, timestamp and reply-to; users never change |
| Forum.LoginRevokesPrevious | main.py:85-88 | after a login overwrites a user's session, the previous token resolves to no one and the new token resolves to that user |
| Forum.HeldByOtherExact | models.py:11 | the collision test used by login holds exactly when another user holds the token |
| Forum.FeedAfterCreate | main.py:96-126 | after a post is created, the list is the old list followed by the new post's record with its author's username |
| Forum.FeedAfterEdit | main.py:138-141 | after an edit, the list differs from the old one only in that post's content and edited flag |
| Transport.Decode | main.py:158-177 | a message that is not an object fails; an action outside the five names is ignored; for a known action, a missing `data` is a key error, a null `data` fails, and a payload lacking a field its form requires fails validation, exactly then; a complete payload is dispatched |
| Transport.DecodeForms | main.py:160-177 | each dispatched call comes from its own action name, with its form built field by field from `data`; edit_post's path argument is `data.post_id`; get_posts receives `data` itself |
| Transport.RegisterStep | main.py:70-79 | register on the store's contents; an error leaves the contents unchanged |
| Transport.LoginStep | main.py:81-89 | login on the store's contents; an error leaves the contents unchanged |
| Transport.GetPostsStep | main.py:111-126 | get_posts on the store's contents, which it never changes |
| Transport.CreatePostStep | main.py:91-109 | create_post on the store's contents; an error leaves the contents unchanged |
| Transport.EditPostStep | main.py:128-151 | edit_post on the store's contents; an error leaves the contents unchanged |
| Transport.Apply | main.py:160-178 | the handler the request names, on the store's contents; an error leaves the contents unchanged |
| Transport.RegisterKeepsConsistent | main.py:70-79 | register keeps the schema's constraints and the id counters above every id in use |
| Transport.LoginKeepsConsistent | main.py:81-89 | login keeps the schema's constraints and the id counters above every id in use |
| Transport.CreatePostKeepsConsistent | main.py:91-109 | create_post keeps the schema's constraints and the id counters above every id in use |
| Transport.EditPostKeepsConsistent | main.py:128-151 | edit_post keeps the schema's constraints and the id counters above every id in use |
| Transport.ApplyKeepsConsistent | main.py:160-178 | every handler keeps the schema's constraints and the id counters above every id in use |
| Transport.Receive | main.py:158-178 | one loop iteration: silent exactly on an ignored action; a decoding failure raises with its own error and changes nothing; a dispatched request whose handler raises gives that error with the contents unchanged; a handler success json.dumps accepts is sent as the reply with the handler's new contents; a success it rejects raises after the handler's commit |
| Forum.HeldByOther | main.py:86-87 | the commit of a login fails on the unique session column (models.py:11) when another user already holds the token; `Forum.HeldByOtherExact` states this, and `Forum.Store.Login` and `Transport.LoginStep` use it (no ensures of its own) |
| Transport.RequiredFields | main.py:26-42 | the fields each form declares without a default; `Transport.Decode` states the validation outcome through it (no ensures of its own) |
| Transport.Complete | main.py:161-176 | a form can be built from `data` when every required field is present and non-null; `Transport.Decode` states that validation fails exactly when it does not hold (no ensures of its own) |
| Transport.Encodable | main.py:163-178 | `send_json` goes through json.dumps, which rejects the datetime in a post record, so only replies that hold no post record can be sent; `Transport.Receive`, `Transport.CreatePostOverSocketFaults` and `Transport.ListOverSocketFaults` state the consequence (no ensures of its own) |
| Transport.Loop | main.py:156-182 | the `try` around `while True`: ignored messages are skipped, replies go out in order, and the first exception sends one error reply and leaves the loop; `Transport.DisconnectReplies`, `Transport.FaultReplies`, `Transport.FaultCause`, `Transport.FaultedPrefix` and `Transport.DisconnectedPrefix` state its properties (no ensures of its own) |
| Transport.Run | main.py:153-182 | the endpoint's loop, `Transport.Loop` with `Transport.Receive` as the iteration; `Transport.ReceiverSound` makes the loop lemmas apply to it, and `Transport.Serve` is proved equal to it (no ensures of its own) |
| Transport.ReceiveKeepsConsistent | main.py:158-178 | one loop iteration leaves the store's contents consistent |
| Transport.ReceiverSound | main.py:156-182 | the endpoint's iteration keeps the contents consistent, is silent exactly on ignored actions, and reports a decoding failure with its own error |
| Transport.LoopKeepsConsistent | main.py:156-182 | a receive loop whose iterations keep the contents consistent leaves them consistent |
| Transport.DisconnectReplies | main.py:157-180 | when the loop ends by disconnect, every non-ignored message got exactly one reply, none an error, and no message failed to decode |
| Transport.FaultReplies | main.py:157-182 | when an exception ends the loop, it ends at a received message, after one reply to each earlier non-ignored message and then a single error reply |
| Transport.FaultCause | main.py:157-182 | the message that raised was not ignored, every earlier message decoded, and a decoding failure is reported with its own error |
| Transport.FaultedPrefix | main.py:156-182 | messages after the one that raised are never read |
| Transport.DisconnectedPrefix | main.py:156-182 | a run of messages without an exception continues with the next messages from the contents it left, its replies first |
| Transport.FaultEndsRun | main.py:156-182 | a message that raises after a run without one ends the loop: one error reply follows the earlier replies, and later messages are not read |
| Transport.HandlerErrorEndsRun | main.py:160-182 | a handler that raises, after messages that did not, ends the loop: its error is the one error reply after the earlier replies, and the contents are those the earlier messages left |
| Transport.HandlerAnswerContinues | main.py:160-178 | a handler success that can be sent, after messages that did not raise, is sent as the next reply, and the loop goes on with the next messages from the handler's new contents |
| Transport.CreatePostOverSocketFaults | main.py:171-174 | over the socket, a create_post with a valid session commits the new post, and sending the record then raises, ending the loop |
| Transport.ListOverSocketFaults | main.py:168-170 | over the socket, get_posts sends its list only while the list is empty; once a post exists, sending raises |
| Transport.Handle | main.py:160-178 | calls the handler the request names; the outcome and the new contents are exactly those of `Apply`, and the store invariant is kept |
| Transport.Respond | main.py:158-178 | one iteration on the store: what is sent, whether the loop stops, and the new contents are exactly those of `Receive` |
| Transport.Serve | main.py:153-182 | the replies sent, how the loop ended and the final contents are exactly those of `Run` over the messages received; the store invariant holds |
| Scenarios.RegisterTwice | main.py:70-79 | registering the same username twice: the first attempt succeeds, the second fails, and exactly one user row remains |
| Scenarios.LoginFailuresAlike | main.py:81-89 | a wrong password and an unknown username give the identical error |
| Scenarios.SecondLoginRevokesFirst | main.py:85-95 | after a second login, posting with the first token fails with an invalid session, while the second token posts as the user |
| Scenarios.CreateThenList | main.py:91-126 | a created post is listed, unedited, with its author's username |
| Scenarios.NullTokenLists | main.py:111-126 | once a user has registered without logging in, get_posts with a null session_id returns the full list |
| Scenarios.EditByOtherRefused | main.py:128-137 | another user's edit fails with 403 and the post stays as it was |
| Scenarios.OwnerEditsTwice | main.py:128-151 | the owner's edits replace the content, `edited` stays true on a repeat, and the post edited is the one named by the path, whatever post_id the form carries |

## Left out

- The web framework: routing, CORS, request-body parsing in the plain endpoints (with their 422 replies), dependency-injected database sessions. A plain endpoint's form is a well-formed value here.
- Type coercion of JSON values on the WebSocket path: `data` is absent, null or an object, and each payload field is absent, null or present with its expected type. A value of another type, which pydantic would coerce or reject, is not modelled.
- The storage engine and its transactions (database.py is not part of this model): commit, refresh and relationship loading. Id assignment is a counter. Whether a rolled-back insert uses up an id depends on the engine; here it does not.
- Foreign-key enforcement: `reply_to` and `owner_id` are never checked by the code. Owners exist because of how posts are created. With an engine that enforces foreign keys, a dangling `reply_to` would be rejected at commit. The model instead stores it unchecked, as the code does.
- The SHA-256 digest and `secrets.token_hex`: both are foreign library calls and become a function parameter and an argument.
- The real clock: timestamps are an abstract integer, supplied by the caller.
- Concurrency: each handler call is one atomic step, and steps run one after another. FastAPI runs the synchronous handlers in a thread pool and accepts several WebSocket connections at once. Interleaving of requests, and of the queries inside one handler, is not modelled.
- The connection manager (connect, disconnect, personal send, broadcast) and the asynchronous receive itself: these are network I/O. The end of the inbox stands for the client's disconnect.
- The text of `str(e)` in the WebSocket error reply: it depends on library exception formatting. The reply carries the `Error` value instead.
- The JSON text of replies: only whether `json.dumps` accepts a reply is modelled (`Encodable`), not the bytes it writes.
