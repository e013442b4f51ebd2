/** What handling one message can do to the tables and to the handler, and what it must reply. */
module HandlerEffects {
  import opened CommonUtils
  import opened Decimal
  import opened MessageStructs
  import opened PayloadParser
  import opened ProtocolStream
  import opened Storage
  import opened Handling

  // ---------------------------------------------------------------- identity

  /** Users keep their name, password hash and role for ever. */
  ghost predicate UsersExtend(a: map<string, User>, b: map<string, User>) {
    forall u :: u in a ==>
      u in b && b[u].username == a[u].username && b[u].passwordHash == a[u].passwordHash && b[u].role == a[u].role
  }

  ghost predicate Extends(a: Db, b: Db) {
    b.hash == a.hash && b.lessons == a.lessons && UsersExtend(a.users, b.users)
  }

  ghost predicate Identified(users: map<string, User>, sessions: map<string, Session>) {
    (forall u :: u in users ==> users[u].username == u)
    && forall u :: u in sessions ==>
         sessions[u].username == u && u in users && sessions[u].role == users[u].role
  }

  ghost predicate TablesIdentify(db: Db) {
    Identified(db.users, db.sessions)
  }

  predicate HandlerIdentified(db: Db, h: Handler) {
    h.authenticated ==> h.username in db.users && h.role == db.users[h.username].role
  }

  lemma ExtendsSelf(db: Db)
    ensures Extends(db, db)
  {
  }

  lemma ExtendsTrans(a: Db, b: Db, c: Db)
    requires Extends(a, b) && Extends(b, c)
    ensures Extends(a, c)
  {
  }

  /** What every outcome keeps, given that it held before. */
  ghost predicate KeepsIdentity(db: Db, h: Handler, o: Outcome) {
    TablesIdentify(o.db) && HandlerIdentified(o.db, o.handler) && Extends(db, o.db) && o.handler.socket == h.socket
    && o.handler.lastActivity == h.lastActivity
  }

  /** A new user, or an old one with the same hash and role, disturbs no identity. */
  lemma PutUser(users: map<string, User>, sessions: map<string, Session>, u: string, user: User)
    requires Identified(users, sessions) && user.username == u
    requires u in users ==> user.passwordHash == users[u].passwordHash && user.role == users[u].role
    ensures Identified(users[u := user], sessions) && UsersExtend(users, users[u := user])
  {
  }

  /** The updates of single users keep every identity. */
  lemma UpdatesIdentify(db: Db, u: string, passwordHash: string, role: u8, level: u8, score: int)
    requires TablesIdentify(db)
    ensures TablesIdentify(WithUser(db, u, passwordHash, role)) && Extends(db, WithUser(db, u, passwordHash, role))
    ensures TablesIdentify(WithLevel(db, u, level)) && Extends(db, WithLevel(db, u, level))
    ensures TablesIdentify(WithScore(db, u, score)) && Extends(db, WithScore(db, u, score))
  {
    assert u in db.users ==> db.users[u].username == u;
    hide Identified, UsersExtend;
    ExtendsSelf(db);
    if u in db.users {
      PutUser(db.users, db.sessions, u, db.users[u].(level := level));
      PutUser(db.users, db.sessions, u, db.users[u].(score := db.users[u].score + score));
    } else {
      PutUser(db.users, db.sessions, u, User(u, passwordHash, role, BEGINNER, 0));
    }
  }

  lemma StaysIdentified(a: Db, b: Db, h: Handler)
    requires HandlerIdentified(a, h) && Extends(a, b)
    ensures HandlerIdentified(b, h)
  {
  }

  lemma RegisterIdentity(db: Db, h: Handler, payload: string)
    requires TablesIdentify(db) && HandlerIdentified(db, h)
    ensures KeepsIdentity(db, h, Register(db, h, payload))
  {
    hide NewMessage, Error, ParseRegister, WithUser, TablesIdentify, Extends;
    match ParseRegister(payload)
    case None => ExtendsSelf(db);
    case Some(r) =>
      UpdatesIdentify(db, r.username, db.hash(r.password), r.role, 0, 0);
      StaysIdentified(db, WithUser(db, r.username, db.hash(r.password), r.role), h);
      ExtendsSelf(db);
  }

  lemma LoginIdentity(db: Db, h: Handler, payload: string)
    requires TablesIdentify(db) && HandlerIdentified(db, h)
    ensures KeepsIdentity(db, h, Login(db, h, payload))
  {
    hide NewMessage, Error, ParseLogin, LoginText;
  }

  lemma LogoutIdentity(db: Db, h: Handler)
    requires TablesIdentify(db) && HandlerIdentified(db, h)
    ensures KeepsIdentity(db, h, Logout(db, h))
  {
    hide NewMessage, Error;
  }

  lemma SubmissionIdentity(db: Db, h: Handler, payload: string)
    requires TablesIdentify(db) && HandlerIdentified(db, h)
    ensures KeepsIdentity(db, h, SubmitQuiz(db, h, payload)) && KeepsIdentity(db, h, SubmitExercise(db, h, payload))
  {
    hide NewMessage, Error, Split, ToString, WithScore, TablesIdentify, Extends;
    ExtendsSelf(db);
    UpdatesIdentify(db, h.username, "", 0, 0, QUIZ_POINTS);
    UpdatesIdentify(db, h.username, "", 0, 0, EXERCISE_POINTS);
    StaysIdentified(db, WithScore(db, h.username, QUIZ_POINTS), h);
    StaysIdentified(db, WithScore(db, h.username, EXERCISE_POINTS), h);
  }

  lemma SetLevelIdentity(db: Db, h: Handler, payload: string)
    requires TablesIdentify(db) && HandlerIdentified(db, h)
    ensures KeepsIdentity(db, h, SetLevel(db, h, payload))
  {
    hide NewMessage, Error, ParseLevel, WithLevel, TablesIdentify, Extends;
    ExtendsSelf(db);
    match ParseLevel(payload)
    case None =>
    case Some(level) =>
      UpdatesIdentify(db, h.username, "", 0, level, 0);
      StaysIdentified(db, WithLevel(db, h.username, level), h);
  }

  lemma ContentIdentity(db: Db, h: Handler, payload: string)
    requires TablesIdentify(db) && HandlerIdentified(db, h)
    ensures KeepsIdentity(db, h, SendFeedback(db, h, payload)) && KeepsIdentity(db, h, AddGameItem(db, h, payload))
  {
    hide NewMessage, Error, Split, FeedbackEntry, Appended, Identified, UsersExtend;
    ExtendsSelf(db);
  }

  lemma WriteIdentity(db: Db, h: Handler, m: Message)
    requires TablesIdentify(db) && HandlerIdentified(db, h)
    ensures KeepsIdentity(db, h, Write(db, h, m))
  {
    hide SetLevel, SubmitQuiz, SubmitExercise, SendFeedback, AddGameItem, KeepsIdentity;
    SubmissionIdentity(db, h, m.payload);
    SetLevelIdentity(db, h, m.payload);
    ContentIdentity(db, h, m.payload);
  }

  lemma HandleIdentity(db: Db, h: Handler, m: Message, now: int)
    requires TablesIdentify(db) && HandlerIdentified(db, h)
    ensures KeepsIdentity(db, h.(lastActivity := now), Handle(db, h, m, now))
  {
    hide NewMessage, Error, Answer, Register, Login, Logout, Write;
    var g := h.(lastActivity := now);
    RegisterIdentity(db, g, m.payload);
    LoginIdentity(db, g, m.payload);
    LogoutIdentity(db, g);
    WriteIdentity(db, g, m);
    ExtendsSelf(db);
  }

  // ---------------------------------------------------------------- the authentication table

  predicate NotAuthenticatedReply(m: Message) {
    m.kind == ERROR_MESSAGE && |m.payload| >= 2 && m.payload[0] == '5' && m.payload[1] == '|'
  }

  /** The types that some handler guards with its login check. */
  predicate Guarded(kind: u16) {
    kind == LOGOUT_REQUEST || Writing(kind) || Reading(kind)
  }

  lemma ErrorReply(code: u16, description: string)
    requires code <= INVALID_PARAMETER
    ensures NotAuthenticatedReply(Error(code, description)) <==> code == NOT_AUTHENTICATED
  {
    if code == INVALID_PARAMETER {
      assert Digits(10) == Digits(1) + [DigitChar(0)];
      assert Digits(1) == [DigitChar(1)] && DigitChar(1) == '1';
    } else {
      assert ToString(code) == [DigitChar(code)];
      assert DigitChar(5) == '5';
    }
  }

  lemma ErrorReplies()
    ensures forall code: u16, d: string {:trigger Error(code, d)} ::
              code <= INVALID_PARAMETER ==> (NotAuthenticatedReply(Error(code, d)) <==> code == NOT_AUTHENTICATED)
  {
    forall code: u16, d: string | code <= INVALID_PARAMETER
      ensures NotAuthenticatedReply(Error(code, d)) <==> code == NOT_AUTHENTICATED
    {
      ErrorReply(code, d);
    }
  }

  lemma WriteRepliesOtherwise(db: Db, h: Handler, m: Message)
    ensures !NotAuthenticatedReply(Write(db, h, m).reply)
  {
    hide Error, ErrorText, SuccessText, ParseLevel, Split, FeedbackEntry, ToString;
    ErrorReplies();
  }

  lemma AnswerRepliesOtherwise(db: Db, h: Handler, m: Message)
    ensures !NotAuthenticatedReply(Answer(db, h, m))
  {
    hide Error, SuccessText, ParseChat, ToString, JoinEntries, ItemsText, LessonContent, Trim;
    ErrorReplies();
  }

  lemma AccountRepliesOtherwise(db: Db, h: Handler, payload: string)
    ensures !NotAuthenticatedReply(Register(db, h, payload).reply)
    ensures !NotAuthenticatedReply(Login(db, h, payload).reply)
    ensures NotAuthenticatedReply(Logout(db, h).reply) <==> !h.authenticated
  {
    hide Error, ErrorText, SuccessText, ParseRegister, ParseLogin, LoginText;
    ErrorReplies();
  }

  /** NOT_AUTHENTICATED is the reply to exactly the guarded requests of a handler that is not logged in. */
  lemma NotAuthenticatedExactly(db: Db, h: Handler, m: Message, now: int)
    ensures NotAuthenticatedReply(Handle(db, h, m, now).reply) <==> !h.authenticated && Guarded(m.kind)
  {
    hide Error, Register, Login, Logout, Write, Answer;
    var g := h.(lastActivity := now);
    ErrorReplies();
    WriteRepliesOtherwise(db, g, m);
    AnswerRepliesOtherwise(db, g, m);
    AccountRepliesOtherwise(db, g, m.payload);
  }

  /**
    The protocol's table against the handlers: what it says needs a login is refused without one and changes
    nothing but the time of the last activity, and every guarded request is in the table.
   */
  lemma AuthenticationTable(db: Db, h: Handler, m: Message, now: int)
    ensures !h.authenticated && RequiresAuthentication(m.kind) ==>
              var o := Handle(db, h, m, now);
              o.reply.kind == ERROR_MESSAGE && o.db == db && o.handler == h.(lastActivity := now)
    ensures Guarded(m.kind) ==> RequiresAuthentication(m.kind)
    ensures !RequiresAuthentication(m.kind) <==> m.kind in {0x0101, 0x0111, 0x0901, 0x0921}
  {
    hide ErrorText, Register, Login, Write, Answer;
  }

  // ---------------------------------------------------------------- replies that promise nothing

  /** The points that a reply announces. */
  function PointsOf(reply: Message): int {
    if reply.kind == SUBMIT_QUIZ_RESPONSE then 10
    else if reply.kind == SUBMIT_EXERCISE_RESPONSE then 5
    else 0
  }

  predicate Quiet(reply: Message) {
    PointsOf(reply) == 0 && reply.kind != ADD_GAME_ITEM_SUCCESS && reply.kind != SEND_FEEDBACK_SUCCESS
  }

  lemma QuietReplies(db: Db, h: Handler, m: Message)
    ensures Quiet(Register(db, h, m.payload).reply)
    ensures Quiet(Login(db, h, m.payload).reply) && Login(db, h, m.payload).reply.kind != REGISTER_SUCCESS
    ensures Quiet(Logout(db, h).reply) && Logout(db, h).reply.kind != REGISTER_SUCCESS
    ensures Quiet(Answer(db, h, m)) && Answer(db, h, m).kind != REGISTER_SUCCESS
  {
    hide ParseRegister, ParseLogin, ParseChat, LoginText, ErrorText, SuccessText;
    hide ToString, JoinEntries, ItemsText, LessonContent, Trim;
  }

  lemma WriteReplies(db: Db, h: Handler, m: Message)
    ensures Write(db, h, m).reply.kind != REGISTER_SUCCESS
    ensures Quiet(SetLevel(db, h, m.payload).reply)
  {
    hide ParseLevel, Split, ErrorText, SuccessText, ToString, FeedbackEntry, Appended;
  }

  // ---------------------------------------------------------------- registration and login

  /** A registration succeeds exactly when it parses and the name is free, and then stores what was parsed. */
  lemma RegisterSucceeds(db: Db, h: Handler, m: Message, now: int)
    ensures Handle(db, h, m, now).reply.kind == REGISTER_SUCCESS
       <==> m.kind == REGISTER_REQUEST && ParseRegister(m.payload).Some?
            && ParseRegister(m.payload).value.username !in db.users
    ensures Handle(db, h, m, now).reply.kind == REGISTER_SUCCESS ==>
              var r := ParseRegister(m.payload).value;
              Handle(db, h, m, now).db == db.(users := db.users[r.username :=
                User(r.username, db.hash(r.password), r.role, BEGINNER, 0)])
  {
    hide ParseRegister, Login, Logout, Write, Answer, ErrorText, SuccessText;
    QuietReplies(db, h.(lastActivity := now), m);
    WriteReplies(db, h.(lastActivity := now), m);
  }

  /** Whatever handler asks: a stored user with the right password is logged in, and told role, level and score. */
  lemma LoginSucceeds(db: Db, h: Handler, m: Message, now: int, c: Credentials)
    requires m.kind == LOGIN_REQUEST && ParseLogin(m.payload) == Some(c)
    requires c.username in db.users && db.users[c.username].passwordHash == db.hash(c.password)
    ensures Handle(db, h, m, now).reply == NewMessage(LOGIN_SUCCESS, LoginText(db.users[c.username]))
  {
    hide ParseLogin, LoginText, NewMessage;
  }

  // ---------------------------------------------------------------- scores

  function ScoreIn(db: Db, u: string): int {
    if u in db.users then db.users[u].score else 0
  }

  lemma WriteScore(db: Db, h: Handler, m: Message, u: string)
    requires h.username in db.users && Writing(m.kind)
    ensures var o := Write(db, h, m);
            ScoreIn(o.db, u) == ScoreIn(db, u) + (if u == h.username then PointsOf(o.reply) else 0)
    ensures PointsOf(Write(db, h, m).reply) > 0 ==>
              m.kind == SUBMIT_QUIZ_REQUEST || m.kind == SUBMIT_EXERCISE_REQUEST
  {
    hide ParseLevel, Split, ErrorText, SuccessText, ToString, FeedbackEntry, Appended;
  }

  lemma AccountScore(db: Db, h: Handler, payload: string, u: string)
    ensures ScoreIn(Register(db, h, payload).db, u) == ScoreIn(db, u)
    ensures ScoreIn(Login(db, h, payload).db, u) == ScoreIn(db, u)
    ensures ScoreIn(Logout(db, h).db, u) == ScoreIn(db, u)
  {
    hide ParseRegister, ParseLogin, Error, NewMessage, LoginText;
  }

  /** The tables credit exactly the points announced, to exactly the user of this connection. */
  lemma HandleScore(db: Db, h: Handler, m: Message, now: int, u: string)
    requires HandlerIdentified(db, h)
    ensures var o := Handle(db, h, m, now);
            ScoreIn(o.db, u) == ScoreIn(db, u) + (if u == h.username then PointsOf(o.reply) else 0)
    ensures PointsOf(Handle(db, h, m, now).reply) > 0 ==>
              h.authenticated && (m.kind == SUBMIT_QUIZ_REQUEST || m.kind == SUBMIT_EXERCISE_REQUEST)
  {
    hide Register, Login, Logout, Write, Answer, ErrorText, ScoreIn;
    var g := h.(lastActivity := now);
    QuietReplies(db, g, m);
    AccountScore(db, g, m.payload, u);
    if h.authenticated && Writing(m.kind) {
      WriteScore(db, g, m, u);
    }
  }

  // ---------------------------------------------------------------- content

  ghost predicate ItemsAsReplied(db: Db, h: Handler, m: Message, o: Outcome) {
    var parts := Split(m.payload, '|');
    if o.reply.kind == ADD_GAME_ITEM_SUCCESS
    then h.authenticated && h.role == ADMIN && m.kind == ADD_GAME_ITEM_REQUEST && |parts| >= 2
         && o.db.gameItems == Appended(db.gameItems, parts[0], parts[1])
    else o.db.gameItems == db.gameItems
  }

  ghost predicate FeedbackAsReplied(db: Db, h: Handler, m: Message, o: Outcome) {
    var parts := Split(m.payload, '|');
    if o.reply.kind == SEND_FEEDBACK_SUCCESS
    then h.authenticated && (h.role == TEACHER || h.role == ADMIN) && m.kind == SEND_FEEDBACK_REQUEST && |parts| >= 3
         && o.db.feedbacks == Appended(db.feedbacks, parts[0], FeedbackEntry(parts[1], parts[2], h.username))
    else o.db.feedbacks == db.feedbacks
  }

  ghost predicate ContentAsReplied(db: Db, h: Handler, m: Message, o: Outcome) {
    ItemsAsReplied(db, h, m, o) && FeedbackAsReplied(db, h, m, o)
  }

  lemma RegisterContent(db: Db, h: Handler, m: Message)
    ensures ContentAsReplied(db, h, m, Register(db, h, m.payload))
  {
    hide ParseRegister, ErrorText, SuccessText;
  }

  lemma LoginContent(db: Db, h: Handler, m: Message)
    ensures ContentAsReplied(db, h, m, Login(db, h, m.payload)) && ContentAsReplied(db, h, m, Logout(db, h))
  {
    hide ParseLogin, ErrorText, SuccessText, LoginText;
  }

  lemma SetLevelContent(db: Db, h: Handler, m: Message)
    ensures ContentAsReplied(db, h, m, SetLevel(db, h, m.payload))
  {
    hide ParseLevel, ErrorText, SuccessText;
  }

  lemma SubmissionContent(db: Db, h: Handler, m: Message)
    ensures ContentAsReplied(db, h, m, SubmitQuiz(db, h, m.payload))
    ensures ContentAsReplied(db, h, m, SubmitExercise(db, h, m.payload))
  {
    hide Split, ErrorText, ToString;
  }

  lemma SendFeedbackContent(db: Db, h: Handler, m: Message)
    requires h.authenticated && m.kind == SEND_FEEDBACK_REQUEST
    ensures ContentAsReplied(db, h, m, SendFeedback(db, h, m.payload))
  {
    hide Split, ErrorText, SuccessText, FeedbackEntry, Appended;
  }

  lemma AddGameItemContent(db: Db, h: Handler, m: Message)
    requires h.authenticated && m.kind == ADD_GAME_ITEM_REQUEST
    ensures ContentAsReplied(db, h, m, AddGameItem(db, h, m.payload))
  {
    hide Split, ErrorText, SuccessText, Appended;
  }

  lemma WriteContent(db: Db, h: Handler, m: Message)
    requires h.authenticated && Writing(m.kind)
    ensures ContentAsReplied(db, h, m, Write(db, h, m))
  {
    hide SetLevel, SubmitQuiz, SubmitExercise, SendFeedback, AddGameItem, ContentAsReplied;
    SetLevelContent(db, h, m);
    SubmissionContent(db, h, m);
    if m.kind == SEND_FEEDBACK_REQUEST {
      SendFeedbackContent(db, h, m);
    }
    if m.kind == ADD_GAME_ITEM_REQUEST {
      AddGameItemContent(db, h, m);
    }
  }

  lemma QuietContent(db: Db, h: Handler, m: Message, reply: Message)
    requires Quiet(reply)
    ensures ContentAsReplied(db, h, m, Outcome(db, h, reply))
  {
    hide Split, Appended;
  }

  lemma PlainRepliesQuiet()
    ensures Quiet(LOGIN_FIRST) && Quiet(NewMessage(HEARTBEAT_RESPONSE, "pong"))
    ensures Quiet(Error(INVALID_FORMAT, "Unknown message type"))
  {
    hide ErrorText;
  }

  lemma DispatchContent(db: Db, h: Handler, m: Message)
    ensures ContentAsReplied(db, h, m, Dispatch(db, h, m))
  {
    hide Register, Login, Logout, Write, Answer, ContentAsReplied, NewMessage, Error, Quiet;
    QuietReplies(db, h, m);
    PlainRepliesQuiet();
    QuietContent(db, h, m, LOGIN_FIRST);
    QuietContent(db, h, m, NewMessage(HEARTBEAT_RESPONSE, "pong"));
    QuietContent(db, h, m, Error(INVALID_FORMAT, "Unknown message type"));
    QuietContent(db, h, m, Answer(db, h, m));
    RegisterContent(db, h, m);
    LoginContent(db, h, m);
    if h.authenticated && Writing(m.kind) {
      WriteContent(db, h, m);
    }
  }

  /**
    Game items and feedback change only with a success reply: items for an administrator, feedback for a teacher
    or administrator and then under the name of this connection's user.
   */
  lemma HandleContent(db: Db, h: Handler, m: Message, now: int)
    ensures ContentAsReplied(db, h, m, Handle(db, h, m, now))
  {
    hide Dispatch, Split, Appended;
    DispatchContent(db, h.(lastActivity := now), m);
  }
}
