/**
 * The websocket endpoint (main.py): one connection reads JSON messages, decodes
 * the `action` field and its `data` payload, calls the matching handler and
 * sends the handler's response back.
 */
module Transport {
  import opened Wrappers
  import opened Schema
  import opened Queries
  import opened Forum

  /** A received message: a JSON object with an optional string `action` and a `data` field, or anything else. */
  datatype Incoming = Object(action: Option<string>, data: Field<Payload>) | NotAnObject

  /** A message together with what the environment supplies while handling it. */
  datatype Arrival = Arrival(frame: Incoming, token: string, now: Timestamp)

  /** A decoded handler call. */
  datatype Request =
    | RegisterCall(registerForm: RegisterForm)
    | LoginCall(loginForm: LoginForm)
    | GetPostsCall(payload: Payload)
    | CreatePostCall(postForm: PostForm)
    | EditPostCall(postId: int, editForm: EditPostForm)

  /** What the dispatch does with a message: nothing, call a handler, or fail before any call. */
  datatype Route = Ignore | Dispatch(request: Request) | Reject(error: Error)

  /** A message the endpoint sends: a handler's response, or the `{"error": ...}` object. */
  datatype Reply = Sent(response: Response) | ErrorReply(error: Error)

  /** How the receive loop ends: the client disconnects, or an exception leaves the loop. */
  datatype Ending = Disconnected | Faulted(at: nat)

  /** The five action names the dispatch recognises. */
  predicate KnownAction(a: string) {
    a == "register" || a == "login" || a == "get_posts" || a == "create_post" || a == "edit_post"
  }

  /** The fields the form of each action declares without a default (main.py:26-42). */
  function RequiredFields(action: string): seq<string> {
    if action == "register" || action == "login" then ["username", "password"]
    else if action == "create_post" then ["session_id", "content"]
    else if action == "edit_post" then ["session_id", "post_id", "new_content"]
    else []
  }

  /** The payload carries a non-null value under the JSON key `name`. */
  predicate Supplies(d: Payload, name: string) {
    match name
    case "username" => d.username.Given?
    case "password" => d.password.Given?
    case "session_id" => d.sessionId.Given?
    case "content" => d.content.Given?
    case "post_id" => d.postId.Given?
    case "new_content" => d.newContent.Given?
    case _ => false
  }

  /** The form of `action` can be built from `d`. */
  predicate Complete(d: Payload, action: string) {
    forall f :: f in RequiredFields(action) ==> Supplies(d, f)
  }

  /**
   * The if/elif chain on `action`, with the form construction each branch performs.
   * A null `data` is reported as a malformed message; `data` of another JSON type is
   * outside the payload type (no type coercion is modelled).
   */
  function Decode(frame: Incoming): (r: Route)
    ensures frame.NotAnObject? ==> r == Reject(MalformedMessage)
    ensures r.Ignore? <==> frame.Object? && !(frame.action.Some? && KnownAction(frame.action.value))
    ensures frame.Object? && frame.action.Some? && KnownAction(frame.action.value) ==>
              && (frame.data.Absent? ==> r == Reject(KeyMissing("data")))
              && (frame.data.Null? ==> r == Reject(MalformedMessage))
              && (frame.data.Given? ==>
                    (r == Reject(ValidationError) <==> !Complete(frame.data.value, frame.action.value))
                    && (Complete(frame.data.value, frame.action.value) ==> r.Dispatch?))
  {
    match frame
    case NotAnObject => Reject(MalformedMessage)
    case Object(action, data) =>
      if !(action.Some? && KnownAction(action.value)) then Ignore
      else if data.Absent? then Reject(KeyMissing("data"))
      else if data.Null? then Reject(MalformedMessage)
      else
        var d := data.value;
        match action.value
        case "register" =>
          if d.username.Given? && d.password.Given?
          then Dispatch(RegisterCall(RegisterForm(d.username.value, d.password.value)))
          else assert "username" in RequiredFields("register") && "password" in RequiredFields("register");
               Reject(ValidationError)
        case "login" =>
          if d.username.Given? && d.password.Given?
          then Dispatch(LoginCall(LoginForm(d.username.value, d.password.value)))
          else assert "username" in RequiredFields("login") && "password" in RequiredFields("login");
               Reject(ValidationError)
        case "get_posts" => Dispatch(GetPostsCall(d))
        case "create_post" =>
          if d.sessionId.Given? && d.content.Given?
          then Dispatch(CreatePostCall(PostForm(d.sessionId.value, d.content.value, d.replyTo.Optional())))
          else assert "session_id" in RequiredFields("create_post") && "content" in RequiredFields("create_post");
               Reject(ValidationError)
        case _ =>
          if d.sessionId.Given? && d.postId.Given? && d.newContent.Given?
          then Dispatch(EditPostCall(d.postId.value,
                                     EditPostForm(d.sessionId.value, d.postId.value, d.newContent.value)))
          else assert "session_id" in RequiredFields("edit_post") && "post_id" in RequiredFields("edit_post")
                      && "new_content" in RequiredFields("edit_post");
               Reject(ValidationError)
  }

  /**
   * A dispatched call carries the action's own form, built field by field from
   * `data`; edit_post takes its path parameter from the payload's post_id.
   */
  lemma DecodeForms(frame: Incoming)
    ensures var r := Decode(frame);
            r.Dispatch? ==>
              && frame.Object? && frame.data.Given?
              && var d := frame.data.value;
                 match r.request
                 case RegisterCall(f) =>
                   frame.action == Some("register") && d.username.Given? && d.password.Given?
                   && f == RegisterForm(d.username.value, d.password.value)
                 case LoginCall(f) =>
                   frame.action == Some("login") && d.username.Given? && d.password.Given?
                   && f == LoginForm(d.username.value, d.password.value)
                 case GetPostsCall(p) =>
                   frame.action == Some("get_posts") && p == d
                 case CreatePostCall(f) =>
                   frame.action == Some("create_post") && d.sessionId.Given? && d.content.Given?
                   && f == PostForm(d.sessionId.value, d.content.value, d.replyTo.Optional())
                 case EditPostCall(id, f) =>
                   frame.action == Some("edit_post")
                   && d.sessionId.Given? && d.postId.Given? && d.newContent.Given?
                   && id == d.postId.value
                   && f == EditPostForm(d.sessionId.value, d.postId.value, d.newContent.value)
  {
  }

  /** The store's contents after a handler call, and the handler's outcome. */
  datatype Step = Step(tables: Tables, result: Result<Response, Error>)

  /** register (main.py:70-79) on the store's contents. */
  function RegisterStep(t: Tables, hash: string -> string, form: RegisterForm): (s: Step)
    ensures s.result.Err? ==> s.tables == t
  {
    if UserByName(t.users, form.username).Some? then Step(t, Err(UsernameTaken))
    else
      var u := User(t.nextUserId, form.username, hash(form.password), None);
      Step(t.(users := t.users + [u], nextUserId := t.nextUserId + 1), Ok(Status(RegisteredStatus)))
  }

  /** login (main.py:81-89) on the store's contents, with `token` as the new session id. */
  function LoginStep(t: Tables, hash: string -> string, form: LoginForm, token: string): (s: Step)
    ensures s.result.Err? ==> s.tables == t
  {
    match Authenticate(t.users, form.username, hash(form.password))
    case None => Step(t, Err(BadCredentials))
    case Some(i) =>
      if HeldByOther(t.users, i, token) then Step(t, Err(IntegrityViolation))
      else Step(t.(users := t.users[i := t.users[i].(sessionId := Some(token))]), Ok(SessionToken(token)))
  }

  /** get_posts (main.py:111-126) on the store's contents. */
  function GetPostsStep(t: Tables, data: Payload): (s: Step)
    ensures s.tables == t
  {
    if data.sessionId.Absent? then Step(t, Err(KeyMissing("session_id")))
    else if UserWithSession(t.users, data.sessionId.Nullable()).None? then Step(t, Err(InvalidSession))
    else if !OwnersExist(t.users, t.posts) then Step(t, Err(OwnerMissing))
    else Step(t, Ok(PostList(Feed(t.users, t.posts))))
  }

  /** create_post (main.py:91-109) on the store's contents, at time `now`. */
  function CreatePostStep(t: Tables, form: PostForm, now: Timestamp): (s: Step)
    ensures s.result.Err? ==> s.tables == t
  {
    match UserBySession(t.users, form.sessionId)
    case None => Step(t, Err(InvalidSession))
    case Some(i) =>
      var p := NewPost(t.nextPostId, form.content, t.users[i].id, form.replyTo, now);
      Step(t.(posts := t.posts + [p], nextPostId := t.nextPostId + 1), Ok(PostOut(Shape(p, t.users[i].username))))
  }

  /** edit_post (main.py:128-151) on the store's contents. */
  function EditPostStep(t: Tables, postId: int, form: EditPostForm): (s: Step)
    ensures s.result.Err? ==> s.tables == t
  {
    match UserBySession(t.users, form.sessionId)
    case None => Step(t, Err(InvalidSession))
    case Some(i) =>
      match PostById(t.posts, postId)
      case None => Step(t, Err(PostNotFound))
      case Some(k) =>
        if t.posts[k].ownerId != t.users[i].id then Step(t, Err(NotOwner))
        else
          var edited := t.posts[k].(content := form.newContent, edited := true);
          Step(t.(posts := t.posts[k := edited]), Ok(PostOut(Shape(edited, t.users[i].username))))
  }

  /** The effect of one handler call on the store's contents. */
  function Apply(t: Tables, hash: string -> string, request: Request, token: string, now: Timestamp): (s: Step)
    ensures s.result.Err? ==> s.tables == t
  {
    match request
    case RegisterCall(form) => RegisterStep(t, hash, form)
    case LoginCall(form) => LoginStep(t, hash, form, token)
    case GetPostsCall(data) => GetPostsStep(t, data)
    case CreatePostCall(form) => CreatePostStep(t, form, now)
    case EditPostCall(postId, form) => EditPostStep(t, postId, form)
  }

  /** register keeps the schema's constraints and the counters ahead of the keys in use. */
  lemma RegisterKeepsConsistent(t: Tables, hash: string -> string, form: RegisterForm)
    requires Consistent(t)
    ensures Consistent(RegisterStep(t, hash, form).tables)
  {
    if UserByName(t.users, form.username).None? {
      AppendUserKeepsIntegrity(t.users, t.posts, User(t.nextUserId, form.username, hash(form.password), None));
    }
  }

  /** login keeps the schema's constraints and the counters ahead of the keys in use. */
  lemma LoginKeepsConsistent(t: Tables, hash: string -> string, form: LoginForm, token: string)
    requires Consistent(t)
    ensures Consistent(LoginStep(t, hash, form, token).tables)
  {
    var found := Authenticate(t.users, form.username, hash(form.password));
    if found.Some? && !HeldByOther(t.users, found.value, token) {
      HeldByOtherExact(t.users, found.value, token);
      SetSessionKeepsIntegrity(t.users, t.posts, found.value, token);
    }
  }

  /** create_post keeps the schema's constraints and the counters ahead of the keys in use. */
  lemma CreatePostKeepsConsistent(t: Tables, form: PostForm, now: Timestamp)
    requires Consistent(t)
    ensures Consistent(CreatePostStep(t, form, now).tables)
  {
    var found := UserBySession(t.users, form.sessionId);
    if found.Some? {
      var p := NewPost(t.nextPostId, form.content, t.users[found.value].id, form.replyTo, now);
      assert HasUser(t.users, p.ownerId) by { assert t.users[found.value].id == p.ownerId; }
      AppendPostKeepsIntegrity(t.users, t.posts, p);
    }
  }

  /** edit_post keeps the schema's constraints and the counters ahead of the keys in use. */
  lemma EditPostKeepsConsistent(t: Tables, postId: int, form: EditPostForm)
    requires Consistent(t)
    ensures Consistent(EditPostStep(t, postId, form).tables)
  {
    var found := UserBySession(t.users, form.sessionId);
    if found.Some? && PostById(t.posts, postId).Some? {
      EditPostKeepsIntegrity(t.users, t.posts, PostById(t.posts, postId).value, form.newContent);
    }
  }

  /** Every handler keeps the schema's constraints and the counters ahead of the keys in use. */
  lemma ApplyKeepsConsistent(t: Tables, hash: string -> string, request: Request, token: string, now: Timestamp)
    requires Consistent(t)
    ensures Consistent(Apply(t, hash, request, token, now).tables)
  {
    match request
    case RegisterCall(form) => RegisterKeepsConsistent(t, hash, form);
    case LoginCall(form) => LoginKeepsConsistent(t, hash, form, token);
    case GetPostsCall(_) =>
    case CreatePostCall(form) => CreatePostKeepsConsistent(t, form, now);
    case EditPostCall(postId, form) => EditPostKeepsConsistent(t, postId, form);
  }

  /**
   * `send_json` serialises with json.dumps, which rejects the datetime a post
   * record carries: a reply holding a post cannot be sent.
   */
  predicate Encodable(response: Response) {
    match response
    case PostOut(_) => false
    case PostList(records) => records == []
    case _ => true
  }

  /** What one received message does: no reply, a reply, or an exception. */
  datatype Turn = Silent | Answer(response: Response, after: Tables) | Fault(error: Error, after: Tables)

  /** One iteration of the receive loop. */
  function Receive(t: Tables, hash: string -> string, a: Arrival): (turn: Turn)
    ensures turn.Silent? <==> Decode(a.frame).Ignore?
    ensures Decode(a.frame).Reject? ==> turn == Fault(Decode(a.frame).error, t)
    ensures turn.Answer? ==> Encodable(turn.response)
    ensures Decode(a.frame).Dispatch? ==>
              var step := Apply(t, hash, Decode(a.frame).request, a.token, a.now);
              && (step.result.Err? ==> turn == Fault(step.result.error, t))
              && (step.result.Ok? && Encodable(step.result.value) ==> turn == Answer(step.result.value, step.tables))
              && (step.result.Ok? && !Encodable(step.result.value) ==> turn == Fault(NotSerializable, step.tables))
  {
    match Decode(a.frame)
    case Ignore => Silent
    case Reject(e) => Fault(e, t)
    case Dispatch(request) =>
      var step := Apply(t, hash, request, a.token, a.now);
      if step.result.Err? then Fault(step.result.error, step.tables)
      else if !Encodable(step.result.value) then Fault(NotSerializable, step.tables)
      else Answer(step.result.value, step.tables)
  }

  /** A received message leaves the store's contents consistent. */
  lemma ReceiveKeepsConsistent(t: Tables, hash: string -> string, a: Arrival)
    requires Consistent(t)
    ensures !Receive(t, hash, a).Silent? ==> Consistent(Receive(t, hash, a).after)
  {
    if Decode(a.frame).Dispatch? {
      ApplyKeepsConsistent(t, hash, Decode(a.frame).request, a.token, a.now);
    }
  }

  /** The store's final contents, the replies sent and how a connection's loop ended. */
  datatype Transcript = Transcript(tables: Tables, sent: seq<Reply>, ending: Ending)

  /** An ending seen `k` messages later in the inbox. */
  function Later(e: Ending, k: nat): Ending {
    match e
    case Disconnected => Disconnected
    case Faulted(at) => Faulted(at + k)
  }

  /** A transcript for messages that follow `k` earlier ones, which sent `sent`. */
  function After(k: nat, sent: seq<Reply>, s: Transcript): Transcript {
    Transcript(s.tables, sent + s.sent, Later(s.ending, k))
  }

  /**
   * The shape of the receive loop over the messages `inbox`, from contents `t`, with
   * `receive` saying what each message does: ignored messages are skipped, replies are
   * sent in order, and the first exception sends one error reply and ends the loop.
   */
  function Loop(receive: (Tables, Arrival) -> Turn, t: Tables, inbox: seq<Arrival>): (s: Transcript)
    decreases |inbox|
  {
    if inbox == [] then Transcript(t, [], Disconnected)
    else
      match receive(t, inbox[0])
      case Silent => After(1, [], Loop(receive, t, inbox[1..]))
      case Fault(e, t') => Transcript(t', [ErrorReply(e)], Faulted(0))
      case Answer(response, t') => After(1, [Sent(response)], Loop(receive, t', inbox[1..]))
  }

  /** One iteration of the endpoint's loop, as a function of the contents and the message. */
  function Receiver(hash: string -> string): (Tables, Arrival) -> Turn {
    (t, a) => Receive(t, hash, a)
  }

  /** The endpoint's receive loop of one connection over the messages `inbox`, from contents `t`. */
  function Run(t: Tables, hash: string -> string, inbox: seq<Arrival>): Transcript {
    Loop(Receiver(hash), t, inbox)
  }

  /** `receive` keeps the store's contents consistent. */
  ghost predicate KeepsConsistent(receive: (Tables, Arrival) -> Turn) {
    forall t, a :: Consistent(t) && !receive(t, a).Silent? ==> Consistent(receive(t, a).after)
  }

  /** `receive` is silent exactly on ignored messages and reports a decoding failure with its own error. */
  ghost predicate FollowsDecode(receive: (Tables, Arrival) -> Turn) {
    forall t, a :: && (receive(t, a).Silent? <==> Decode(a.frame).Ignore?)
                   && (Decode(a.frame).Reject? ==> receive(t, a) == Fault(Decode(a.frame).error, t))
  }

  /** The endpoint's iteration keeps the contents consistent and follows the dispatch. */
  lemma ReceiverSound(hash: string -> string)
    ensures KeepsConsistent(Receiver(hash))
    ensures FollowsDecode(Receiver(hash))
  {
    forall t, a | Consistent(t) ensures !Receiver(hash)(t, a).Silent? ==> Consistent(Receiver(hash)(t, a).after) {
      ReceiveKeepsConsistent(t, hash, a);
    }
  }

  /** A receive loop whose iterations keep the contents consistent leaves them consistent. */
  lemma {:induction false} LoopKeepsConsistent(receive: (Tables, Arrival) -> Turn, t: Tables, inbox: seq<Arrival>)
    requires KeepsConsistent(receive) && Consistent(t)
    ensures Consistent(Loop(receive, t, inbox).tables)
    decreases |inbox|
  {
    if inbox != [] {
      match receive(t, inbox[0])
      case Silent => LoopKeepsConsistent(receive, t, inbox[1..]);
      case Fault(_, _) =>
      case Answer(_, t') => LoopKeepsConsistent(receive, t', inbox[1..]);
    }
  }

  /** The number of messages in `inbox` that the dispatch does not ignore. */
  function Answered(inbox: seq<Arrival>): nat
    decreases |inbox|
  {
    if inbox == [] then 0
    else (if Decode(inbox[0].frame).Ignore? then 0 else 1) + Answered(inbox[1..])
  }

  /**
   * Without an exception, every message not ignored gets exactly one reply, none of
   * them an error, and no message failed to decode.
   */
  lemma {:induction false} DisconnectReplies(receive: (Tables, Arrival) -> Turn, t: Tables, inbox: seq<Arrival>)
    requires FollowsDecode(receive)
    requires Loop(receive, t, inbox).ending.Disconnected?
    ensures |Loop(receive, t, inbox).sent| == Answered(inbox)
    ensures forall m :: 0 <= m < |Loop(receive, t, inbox).sent| ==> Loop(receive, t, inbox).sent[m].Sent?
    ensures forall m :: 0 <= m < |inbox| ==> !Decode(inbox[m].frame).Reject?
    decreases |inbox|
  {
    if inbox != [] {
      var turn := receive(t, inbox[0]);
      var t' := if turn.Silent? then t else turn.after;
      DisconnectReplies(receive, t', inbox[1..]);
      forall m | 1 <= m < |inbox| ensures !Decode(inbox[m].frame).Reject? {
        assert inbox[m] == inbox[1..][m - 1];
      }
    }
  }

  /**
   * With an exception, the loop ends at a message it received, after the replies to
   * the messages before it and a single error reply.
   */
  lemma {:induction false} FaultReplies(receive: (Tables, Arrival) -> Turn, t: Tables, inbox: seq<Arrival>)
    requires FollowsDecode(receive)
    requires Loop(receive, t, inbox).ending.Faulted?
    ensures var s := Loop(receive, t, inbox);
            && s.ending.at < |inbox|
            && |s.sent| == Answered(inbox[..s.ending.at]) + 1
            && s.sent[|s.sent| - 1].ErrorReply?
            && (forall m :: 0 <= m < |s.sent| - 1 ==> s.sent[m].Sent?)
    decreases |inbox|
  {
    match receive(t, inbox[0])
    case Fault(_, _) =>
    case Silent =>
      FaultReplies(receive, t, inbox[1..]);
      var at := Loop(receive, t, inbox[1..]).ending.at;
      assert inbox[..at + 1][1..] == inbox[1..][..at];
    case Answer(_, t') =>
      FaultReplies(receive, t', inbox[1..]);
      var at := Loop(receive, t', inbox[1..]).ending.at;
      assert inbox[..at + 1][1..] == inbox[1..][..at];
  }

  /** Decoding outcomes at and before position `at` of `inbox[1..]` seen in `inbox`. */
  lemma CauseAfterHead(inbox: seq<Arrival>, at: nat)
    requires at < |inbox| - 1
    requires !Decode(inbox[0].frame).Reject?
    requires forall m :: 0 <= m < at ==> !Decode(inbox[1..][m].frame).Reject?
    ensures inbox[at + 1] == inbox[1..][at]
    ensures forall m :: 0 <= m < at + 1 ==> !Decode(inbox[m].frame).Reject?
  {
    forall m | 1 <= m < at + 1 ensures !Decode(inbox[m].frame).Reject? {
      assert inbox[m] == inbox[1..][m - 1];
    }
  }

  /**
   * The message that raised was not an ignored one, every message before it decoded,
   * and a message that failed to decode is reported with its own error.
   */
  lemma {:induction false} FaultCause(receive: (Tables, Arrival) -> Turn, t: Tables, inbox: seq<Arrival>)
    requires FollowsDecode(receive)
    requires Loop(receive, t, inbox).ending.Faulted?
    ensures var s := Loop(receive, t, inbox);
            && s.ending.at < |inbox| && |s.sent| > 0
            && !Decode(inbox[s.ending.at].frame).Ignore?
            && (forall m :: 0 <= m < s.ending.at ==> !Decode(inbox[m].frame).Reject?)
            && (Decode(inbox[s.ending.at].frame).Reject? ==>
                  s.sent[|s.sent| - 1] == ErrorReply(Decode(inbox[s.ending.at].frame).error))
    decreases |inbox|
  {
    match receive(t, inbox[0])
    case Fault(_, _) =>
    case Silent =>
      FaultCause(receive, t, inbox[1..]);
      CauseAfterHead(inbox, Loop(receive, t, inbox[1..]).ending.at);
    case Answer(_, t') =>
      FaultCause(receive, t', inbox[1..]);
      CauseAfterHead(inbox, Loop(receive, t', inbox[1..]).ending.at);
  }

  /**
   * The loop after `k` messages, `sent` replies and contents `before`, advanced by
   * the turn of message `k`.
   */
  lemma AdvanceLoop(receive: (Tables, Arrival) -> Turn, start: Tables, inbox: seq<Arrival>,
                    k: nat, sent: seq<Reply>, before: Tables)
    requires k < |inbox|
    requires Loop(receive, start, inbox) == After(k, sent, Loop(receive, before, inbox[k..]))
    ensures var turn := receive(before, inbox[k]);
            && (turn.Silent? ==> Loop(receive, start, inbox) == After(k + 1, sent, Loop(receive, before, inbox[k + 1..])))
            && (turn.Answer? ==>
                  Loop(receive, start, inbox)
                    == After(k + 1, sent + [Sent(turn.response)], Loop(receive, turn.after, inbox[k + 1..])))
            && (turn.Fault? ==>
                  Loop(receive, start, inbox) == Transcript(turn.after, sent + [ErrorReply(turn.error)], Faulted(k)))
  {
    assert inbox[k..][0] == inbox[k] && inbox[k..][1..] == inbox[k + 1..];
    match receive(before, inbox[k])
    case Silent =>
      AfterAfter(k, sent, 1, [], Loop(receive, before, inbox[k + 1..]));
    case Answer(response, after) =>
      AfterAfter(k, sent, 1, [Sent(response)], Loop(receive, after, inbox[k + 1..]));
    case Fault(e, after) =>
  }

  /** Replies sent over `j` messages, then over `k` more, are the replies of the `j + k`. */
  lemma AfterAfter(j: nat, sent: seq<Reply>, k: nat, more: seq<Reply>, s: Transcript)
    ensures After(j, sent, After(k, more, s)) == After(j + k, sent + more, s)
  {
    assert sent + (more + s.sent) == (sent + more) + s.sent;
    assert Later(Later(s.ending, k), j) == Later(s.ending, j + k);
  }

  /** Messages after the one that raised are never read. */
  lemma {:induction false} FaultedPrefix(receive: (Tables, Arrival) -> Turn, t: Tables, pre: seq<Arrival>, post: seq<Arrival>)
    requires Loop(receive, t, pre).ending.Faulted?
    ensures Loop(receive, t, pre + post) == Loop(receive, t, pre)
    decreases |pre|
  {
    var all := pre + post;
    assert all[0] == pre[0] && all[1..] == pre[1..] + post;
    match receive(t, pre[0])
    case Fault(_, _) =>
    case Silent => FaultedPrefix(receive, t, pre[1..], post);
    case Answer(_, t') => FaultedPrefix(receive, t', pre[1..], post);
  }

  /** A prefix that ended in a disconnect continues with the rest of the messages from the contents it left. */
  lemma {:induction false} DisconnectedPrefix(receive: (Tables, Arrival) -> Turn, t: Tables, pre: seq<Arrival>, post: seq<Arrival>)
    requires Loop(receive, t, pre).ending.Disconnected?
    ensures var s := Loop(receive, t, pre);
            Loop(receive, t, pre + post) == After(|pre|, s.sent, Loop(receive, s.tables, post))
    decreases |pre|
  {
    if pre == [] {
      assert pre + post == post;
      var r := Loop(receive, t, post);
      assert Later(r.ending, 0) == r.ending;
    } else {
      var all := pre + post;
      assert all[0] == pre[0] && all[1..] == pre[1..] + post;
      match receive(t, pre[0])
      case Silent =>
        DisconnectedPrefix(receive, t, pre[1..], post);
        var s := Loop(receive, t, pre[1..]);
        AfterAfter(1, [], |pre| - 1, s.sent, Loop(receive, s.tables, post));
      case Answer(response, t') =>
        DisconnectedPrefix(receive, t', pre[1..], post);
        var s := Loop(receive, t', pre[1..]);
        AfterAfter(1, [Sent(response)], |pre| - 1, s.sent, Loop(receive, s.tables, post));
    }
  }

  /**
   * A message whose handling raises, after a run of messages that did not, ends the
   * loop: one error reply follows the earlier replies and nothing later is read.
   */
  lemma FaultEndsRun(t: Tables, hash: string -> string, pre: seq<Arrival>, a: Arrival, post: seq<Arrival>)
    requires Run(t, hash, pre).ending.Disconnected?
    requires Receive(Run(t, hash, pre).tables, hash, a).Fault?
    ensures var s := Run(t, hash, pre);
            var turn := Receive(s.tables, hash, a);
            Run(t, hash, pre + [a] + post) == Transcript(turn.after, s.sent + [ErrorReply(turn.error)], Faulted(|pre|))
  {
    assert pre + [a] + post == pre + ([a] + post);
    DisconnectedPrefix(Receiver(hash), t, pre, [a] + post);
    assert ([a] + post)[0] == a;
  }

  /**
   * A handler that raises, after a run of messages that did not, ends the loop: its
   * error is the one error reply after the earlier replies, and the contents are
   * those the earlier messages left.
   */
  lemma HandlerErrorEndsRun(t: Tables, hash: string -> string, pre: seq<Arrival>, a: Arrival, post: seq<Arrival>)
    requires Run(t, hash, pre).ending.Disconnected?
    requires Decode(a.frame).Dispatch?
    requires Apply(Run(t, hash, pre).tables, hash, Decode(a.frame).request, a.token, a.now).result.Err?
    ensures var s := Run(t, hash, pre);
            var e := Apply(s.tables, hash, Decode(a.frame).request, a.token, a.now).result.error;
            Run(t, hash, pre + [a] + post) == Transcript(s.tables, s.sent + [ErrorReply(e)], Faulted(|pre|))
  {
    FaultEndsRun(t, hash, pre, a, post);
  }

  /**
   * A handler that succeeds with a reply json.dumps accepts, after a run of messages
   * that did not raise, sends that reply and the loop goes on with the next messages
   * from the contents the handler left.
   */
  lemma HandlerAnswerContinues(t: Tables, hash: string -> string, pre: seq<Arrival>, a: Arrival, post: seq<Arrival>)
    requires Run(t, hash, pre).ending.Disconnected?
    requires Decode(a.frame).Dispatch?
    requires var step := Apply(Run(t, hash, pre).tables, hash, Decode(a.frame).request, a.token, a.now);
             step.result.Ok? && Encodable(step.result.value)
    ensures var s := Run(t, hash, pre);
            var step := Apply(s.tables, hash, Decode(a.frame).request, a.token, a.now);
            Run(t, hash, pre + [a] + post)
              == After(|pre| + 1, s.sent + [Sent(step.result.value)], Run(step.tables, hash, post))
  {
    var s := Run(t, hash, pre);
    var step := Apply(s.tables, hash, Decode(a.frame).request, a.token, a.now);
    assert pre + [a] + post == pre + ([a] + post);
    DisconnectedPrefix(Receiver(hash), t, pre, [a] + post);
    assert ([a] + post)[0] == a && ([a] + post)[1..] == post;
    assert Receiver(hash)(s.tables, a) == Answer(step.result.value, step.tables);
    AfterAfter(|pre|, s.sent, 1, [Sent(step.result.value)], Run(step.tables, hash, post));
  }

  /**
   * Over the socket a create_post with a valid session commits the new post, and
   * then sending the record fails: the loop ends with an error reply.
   */
  lemma CreatePostOverSocketFaults(t: Tables, hash: string -> string, a: Arrival, form: PostForm)
    requires Decode(a.frame) == Dispatch(CreatePostCall(form))
    requires UserBySession(t.users, form.sessionId).Some?
    ensures var owner := t.users[UserBySession(t.users, form.sessionId).value];
            Receive(t, hash, a)
              == Fault(NotSerializable,
                       t.(posts := t.posts + [NewPost(t.nextPostId, form.content, owner.id, form.replyTo, a.now)],
                          nextPostId := t.nextPostId + 1))
  {
  }

  /** Over the socket get_posts fails to send its list as soon as one post exists. */
  lemma ListOverSocketFaults(t: Tables, hash: string -> string, a: Arrival, data: Payload)
    requires Consistent(t)
    requires Decode(a.frame) == Dispatch(GetPostsCall(data))
    requires !data.sessionId.Absent? && UserWithSession(t.users, data.sessionId.Nullable()).Some?
    ensures Receive(t, hash, a) == if t.posts == [] then Answer(PostList([]), t) else Fault(NotSerializable, t)
  {
  }

  /** Calls the handler a decoded request names. */
  method Handle(store: Store, request: Request, token: string, now: Timestamp)
    returns (r: Result<Response, Error>)
    requires store.Valid()
    modifies store
    ensures store.Valid()
    ensures Step(store.Snap(), r) == Apply(old(store.Snap()), store.hash, request, token, now)
  {
    match request
    case RegisterCall(form) => r := store.Register(form);
    case LoginCall(form) => r := store.Login(form, token);
    case GetPostsCall(payload) => r := store.GetPosts(payload);
    case CreatePostCall(form) => r := store.CreatePost(form, now);
    case EditPostCall(postId, form) => r := store.EditPost(postId, form);
  }

  /**
   * One iteration of the receive loop: decodes the message, calls the handler, and
   * says what is sent and whether the exception handler ends the loop.
   */
  method Respond(store: Store, arrival: Arrival) returns (reply: Option<Reply>, stop: bool)
    requires store.Valid()
    modifies store
    ensures store.Valid()
    ensures match Receive(old(store.Snap()), store.hash, arrival)
            case Silent => reply == None && !stop && store.Snap() == old(store.Snap())
            case Answer(response, after) => reply == Some(Sent(response)) && !stop && store.Snap() == after
            case Fault(e, after) => reply == Some(ErrorReply(e)) && stop && store.Snap() == after
  {
    match Decode(arrival.frame) {
      case Ignore =>
        reply, stop := None, false;
      case Reject(e) =>
        reply, stop := Some(ErrorReply(e)), true;
      case Dispatch(request) =>
        var r := Handle(store, request, arrival.token, arrival.now);
        if r.Err? {
          reply, stop := Some(ErrorReply(r.error)), true;
        } else if !Encodable(r.value) {
          reply, stop := Some(ErrorReply(NotSerializable)), true;
        } else {
          reply, stop := Some(Sent(r.value)), false;
        }
    }
  }

  /**
   * The receive loop of one connection over the messages `inbox` it will receive.
   * Ignored actions get no reply. The handler for exceptions encloses the loop, so
   * the first exception, from decoding, from a handler or from sending the reply,
   * is reported in a single error reply and ends the loop. Running out of
   * messages is the disconnect.
   */
  method Serve(store: Store, inbox: seq<Arrival>) returns (sent: seq<Reply>, ending: Ending)
    requires store.Valid()
    modifies store
    ensures store.Valid()
    ensures Transcript(store.Snap(), sent, ending) == Run(old(store.Snap()), store.hash, inbox)
  {
    ghost var start := store.Snap();
    sent := [];
    var k := 0;
    while k < |inbox|
      invariant 0 <= k <= |inbox|
      invariant store.Valid()
      invariant Run(start, store.hash, inbox) == After(k, sent, Run(store.Snap(), store.hash, inbox[k..]))
    {
      ghost var before := store.Snap();
      AdvanceLoop(Receiver(store.hash), start, inbox, k, sent, before);
      assert Receiver(store.hash)(before, inbox[k]) == Receive(before, store.hash, inbox[k]);
      var reply, stop := Respond(store, inbox[k]);
      if stop {
        sent := sent + [reply.value];
        return sent, Faulted(k);
      }
      if reply.Some? {
        sent := sent + [reply.value];
      }
      k := k + 1;
    }
    assert inbox[k..] == [];
    ending := Disconnected;
  }
}
