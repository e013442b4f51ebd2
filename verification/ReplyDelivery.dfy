/** Which replies survive the wire: where newlines can come from, and how long lesson content is lost. */
module ReplyDelivery {
  import opened CommonUtils
  import opened Decimal
  import opened MessageStructs
  import opened ProtocolStream
  import opened PayloadParser
  import opened Storage
  import opened Handling

  ghost predicate AllClean(table: map<string, seq<string>>) {
    forall k, i :: k in table && 0 <= i < |table[k]| ==> '\n' !in table[k][i]
  }

  /** No stored text that can get into a reply holds a newline. */
  ghost predicate CleanDb(db: Db) {
    (forall u :: u in db.users ==> '\n' !in u)
    && AllClean(db.lessons) && AllClean(db.gameItems) && AllClean(db.feedbacks)
  }

  predicate CleanHandler(h: Handler) {
    h.authenticated ==> '\n' !in h.username
  }

  lemma {:induction false} SplitTokensClean(s: string, d: char, c: char)
    requires c !in s
    ensures AllFree(Split(s, d), c)
    decreases |s|
  {
    if s != "" {
      var i := Find(s, d, 0);
      if i < |s| {
        SplitTokensClean(s[i + 1..], d, c);
      }
    }
  }

  lemma {:induction false} JoinClean(acc: string, entries: seq<string>)
    requires '\n' !in acc && AllFree(entries, '\n')
    ensures '\n' !in JoinFrom(acc, entries)
    decreases |entries|
  {
    if entries != [] {
      JoinClean((if acc != "" then acc + ";" else acc) + entries[0], entries[1..]);
    }
  }

  lemma {:induction false} ItemsClean(items: seq<string>)
    requires AllFree(items, '\n')
    ensures '\n' !in ItemsText(items)
    decreases |items|
  {
    if items != [] {
      ItemsClean(items[1..]);
    }
  }

  lemma AppendedClean(table: map<string, seq<string>>, key: string, entry: string)
    requires AllClean(table) && '\n' !in entry
    ensures AllClean(Appended(table, key, entry))
  {
  }

  lemma EntriesClean(table: map<string, seq<string>>, key: string)
    requires AllClean(table)
    ensures AllFree(Entries(table, key), '\n')
  {
  }

  lemma ValidNameClean(name: string)
    requires ValidUsername(name)
    ensures '\n' !in name
  {
  }

  // ---------------------------------------------------------------- the tables stay clean

  lemma RegisterClean(db: Db, h: Handler, payload: string)
    requires CleanDb(db)
    ensures CleanDb(Register(db, h, payload).db)
  {
    hide AllClean, NewMessage, Error, Split, Stoi, Trim;
    if ParseRegister(payload).Some? {
      ValidNameClean(ParseRegister(payload).value.username);
    }
  }

  lemma LoginClean(db: Db, h: Handler, payload: string)
    requires CleanDb(db) && CleanHandler(h)
    ensures CleanDb(Login(db, h, payload).db) && CleanHandler(Login(db, h, payload).handler)
    ensures CleanDb(Logout(db, h).db) && CleanHandler(Logout(db, h).handler)
  {
    hide AllClean, NewMessage, Error, ParseLogin, LoginText;
  }

  lemma SubmissionClean(db: Db, h: Handler, payload: string)
    requires CleanDb(db)
    ensures CleanDb(SetLevel(db, h, payload).db)
    ensures CleanDb(SubmitQuiz(db, h, payload).db) && CleanDb(SubmitExercise(db, h, payload).db)
  {
    hide AllClean, NewMessage, Error, ParseLevel, Split, ToString;
  }

  lemma ContentClean(db: Db, h: Handler, payload: string)
    requires CleanDb(db) && '\n' !in payload && '\n' !in h.username
    ensures CleanDb(SendFeedback(db, h, payload).db) && CleanDb(AddGameItem(db, h, payload).db)
  {
    hide AllClean, NewMessage, Error, Split, Appended, FeedbackEntry;
    var parts := Split(payload, '|');
    SplitTokensClean(payload, '|', '\n');
    if |parts| >= 2 {
      AppendedClean(db.gameItems, parts[0], parts[1]);
    }
    if |parts| >= 3 {
      EntryClean(parts[1], parts[2], h.username);
      AppendedClean(db.feedbacks, parts[0], FeedbackEntry(parts[1], parts[2], h.username));
    }
  }

  lemma EntryClean(exerciseId: string, feedback: string, fromUser: string)
    requires '\n' !in exerciseId && '\n' !in feedback && '\n' !in fromUser
    ensures '\n' !in FeedbackEntry(exerciseId, feedback, fromUser)
  {
  }

  lemma HandleKeepsClean(db: Db, h: Handler, m: Message, now: int)
    requires CleanDb(db) && CleanHandler(h) && '\n' !in m.payload
    ensures CleanDb(Handle(db, h, m, now).db) && CleanHandler(Handle(db, h, m, now).handler)
  {
    hide Register, Login, Logout, SetLevel, SubmitQuiz, SubmitExercise, SendFeedback, AddGameItem;
    hide CleanDb, Answer, Error, NewMessage;
    var g := h.(lastActivity := now);
    RegisterClean(db, g, m.payload);
    LoginClean(db, g, m.payload);
    SubmissionClean(db, g, m.payload);
    HandlersKept(db, g, m.payload);
    if h.authenticated {
      ContentClean(db, g, m.payload);
    }
  }

  /** Only logging in and out change who a handler speaks for. */
  lemma HandlersKept(db: Db, h: Handler, payload: string)
    ensures Register(db, h, payload).handler == h && SubmitQuiz(db, h, payload).handler == h
    ensures SubmitExercise(db, h, payload).handler == h
    ensures SendFeedback(db, h, payload).handler == h && AddGameItem(db, h, payload).handler == h
    ensures var g := SetLevel(db, h, payload).handler; g == h.(level := g.level)
  {
    hide ParseRegister, ParseLevel, Split, NewMessage, Error, ToString;
  }

  // ---------------------------------------------------------------- the replies

  /** Made by the constructor of `Message` with a type other than UNKNOWN. */
  predicate Constructed(m: Message) {
    m == NewMessage(m.kind, m.payload) && m.kind != UNKNOWN
  }

  predicate Plain(m: Message) {
    Constructed(m) && '\n' !in m.payload
  }

  lemma NumberClean(n: int)
    ensures '\n' !in ToString(n)
  {
    DigitsFree(if n < 0 then -n else n, '\n');
  }

  lemma PlainError(code: u16, description: string)
    requires '\n' !in description
    ensures Plain(Error(code, description))
    ensures forall kind: u16 :: kind != UNKNOWN ==> Plain(NewMessage(kind, ErrorText(code, description)))
  {
    NumberClean(code);
  }

  lemma PlainText(kind: u16, text: string)
    requires kind != UNKNOWN && '\n' !in text
    ensures Plain(NewMessage(kind, text))
  {
  }

  lemma PlainSuccess(kind: u16)
    requires kind != UNKNOWN
    ensures Plain(Success(kind))
  {
    NumberClean(0);
  }

  lemma RegisterReply(db: Db, h: Handler, payload: string)
    ensures Plain(Register(db, h, payload).reply)
  {
    hide Plain, Error, NewMessage, ErrorText, Success, ParseRegister;
    PlainError(INVALID_FORMAT, "Invalid registration data");
    PlainError(USER_ALREADY_EXISTS, "Username already exists");
    PlainSuccess(REGISTER_SUCCESS);
  }

  lemma LoginReply(db: Db, h: Handler, payload: string)
    ensures Plain(Login(db, h, payload).reply) && Plain(Logout(db, h).reply)
  {
    hide Plain, Error, NewMessage, ErrorText, Success, ParseLogin, LoginText;
    PlainError(INVALID_FORMAT, "Invalid login data");
    PlainError(INVALID_CREDENTIALS, "Invalid username or password");
    PlainError(NOT_AUTHENTICATED, "Not logged in");
    PlainSuccess(LOGOUT_SUCCESS);
    if LoginUser(db, payload).Some? {
      LoginTextClean(db.users[LoginUser(db, payload).value]);
      PlainText(LOGIN_SUCCESS, LoginText(db.users[LoginUser(db, payload).value]));
    }
  }

  lemma LoginTextClean(user: User)
    ensures '\n' !in LoginText(user)
  {
    NumberClean(user.role);
    NumberClean(user.level);
    NumberClean(user.score);
  }

  lemma SubmissionReply(db: Db, h: Handler, payload: string)
    ensures Plain(SubmitQuiz(db, h, payload).reply) && Plain(SubmitExercise(db, h, payload).reply)
  {
    hide Plain, Error, NewMessage, Split, ToString;
    PlainError(INVALID_FORMAT, "Invalid quiz submission");
    PlainError(INVALID_FORMAT, "Invalid exercise submission");
    NumberClean(QUIZ_POINTS);
    NumberClean(EXERCISE_POINTS);
    PlainText(SUBMIT_QUIZ_RESPONSE, ToString(QUIZ_POINTS) + "|Correct answers: 1/1");
    PlainText(SUBMIT_EXERCISE_RESPONSE, ToString(EXERCISE_POINTS));
  }

  lemma SetLevelReply(db: Db, h: Handler, payload: string)
    ensures Plain(SetLevel(db, h, payload).reply)
  {
    hide Plain, Error, NewMessage, ErrorText, Success, ParseLevel;
    PlainError(INVALID_PARAMETER, "Invalid level");
    PlainError(DATABASE_ERROR, "Failed to update level");
    PlainSuccess(SET_LEVEL_SUCCESS);
  }

  lemma ContentReply(db: Db, h: Handler, payload: string)
    ensures Plain(SendFeedback(db, h, payload).reply) && Plain(AddGameItem(db, h, payload).reply)
  {
    hide Plain, Error, NewMessage, ErrorText, Success, Split, FeedbackEntry;
    PlainError(PERMISSION_DENIED, "Only teachers can send feedback");
    PlainError(INVALID_FORMAT, "Invalid feedback format");
    PlainError(PERMISSION_DENIED, "Admin access required");
    PlainError(INVALID_FORMAT, "Invalid format");
    PlainSuccess(SEND_FEEDBACK_SUCCESS);
    PlainSuccess(ADD_GAME_ITEM_SUCCESS);
  }

  lemma WriteReply(db: Db, h: Handler, m: Message)
    ensures Plain(Write(db, h, m).reply)
  {
    hide Plain, SetLevel, SubmitQuiz, SubmitExercise, SendFeedback, AddGameItem;
    SubmissionReply(db, h, m.payload);
    SetLevelReply(db, h, m.payload);
    ContentReply(db, h, m.payload);
  }

  /** What an answer may quote from the tables. */
  lemma AnswerReply(db: Db, h: Handler, m: Message)
    requires CleanDb(db)
    ensures m.kind != GET_LESSON_CONTENT_REQUEST ==> Plain(Answer(db, h, m))
  {
    hide Plain, Error, NewMessage, ErrorText, SuccessText, ParseChat, ToString, JoinEntries, ItemsText;
    hide LessonContent, Trim, Entries, LevelName, AllClean;
    PlainError(INVALID_FORMAT, "Invalid chat message");
    PlainError(DATABASE_ERROR, "Failed to retrieve score");
    PlainText(GAME_MOVE_RESPONSE, "move_accepted|score:10");
    PlainText(VOICE_CALL_ACCEPT, "call_session_id_123");
    ListReplies(db, h, m);
  }

  lemma ListReplies(db: Db, h: Handler, m: Message)
    requires CleanDb(db)
    ensures Plain(NewMessage(GET_LESSON_LIST_RESPONSE, JoinEntries(LessonsFor(db, h.level))))
    ensures Plain(NewMessage(GET_FEEDBACK_RESPONSE, JoinEntries(Entries(db.feedbacks, h.username))))
    ensures Plain(NewMessage(GAME_START_RESPONSE,
                             "game_session_id_123|" + ItemsText(Entries(db.gameItems, Trim(m.payload)))))
    ensures Plain(NewMessage(CHAT_MESSAGE_ACK, SuccessText("Message sent")))
    ensures h.username in db.users ==> Plain(NewMessage(GET_SCORE_RESPONSE, ToString(db.users[h.username].score)))
  {
    hide Plain, NewMessage, JoinFrom, ItemsText, Trim, Entries, AllClean, ToString;
    EntriesClean(db.lessons, LevelName(h.level));
    EntriesClean(db.feedbacks, h.username);
    EntriesClean(db.gameItems, Trim(m.payload));
    JoinClean("", LessonsFor(db, h.level));
    JoinClean("", Entries(db.feedbacks, h.username));
    ItemsClean(Entries(db.gameItems, Trim(m.payload)));
    NumberClean(0);
    PlainText(GET_LESSON_LIST_RESPONSE, JoinEntries(LessonsFor(db, h.level)));
    PlainText(GET_FEEDBACK_RESPONSE, JoinEntries(Entries(db.feedbacks, h.username)));
    PlainText(GAME_START_RESPONSE, "game_session_id_123|" + ItemsText(Entries(db.gameItems, Trim(m.payload))));
    PlainText(CHAT_MESSAGE_ACK, SuccessText("Message sent"));
    if h.username in db.users {
      NumberClean(db.users[h.username].score);
      PlainText(GET_SCORE_RESPONSE, ToString(db.users[h.username].score));
    }
  }

  lemma ContentHasNewline(id: string)
    ensures '\n' in LessonContent(id)
  {
    var front := "Content for lesson: " + id;
    assert (front + ['\n'] + CONTENT_TAIL)[|front|] == '\n';
  }

  lemma DispatchReply(db: Db, h: Handler, m: Message)
    requires CleanDb(db)
    ensures !(h.authenticated && m.kind == GET_LESSON_CONTENT_REQUEST) ==> Plain(Dispatch(db, h, m).reply)
  {
    hide CleanDb, Plain, Register, Login, Logout, Write, Answer, Error, NewMessage;
    RegisterReply(db, h, m.payload);
    LoginReply(db, h, m.payload);
    WriteReply(db, h, m);
    AnswerReply(db, h, m);
    PlainError(NOT_AUTHENTICATED, "Authentication required");
    PlainError(INVALID_FORMAT, "Unknown message type");
    PlainText(HEARTBEAT_RESPONSE, "pong");
  }

  /** A newline gets into a reply in exactly one way: with lesson content. */
  lemma ReplyNewline(db: Db, h: Handler, m: Message, now: int)
    requires CleanDb(db)
    ensures Constructed(Handle(db, h, m, now).reply)
    ensures '\n' in Handle(db, h, m, now).reply.payload <==> h.authenticated && m.kind == GET_LESSON_CONTENT_REQUEST
  {
    hide CleanDb, Register, Login, Logout, Write, Answer, NewMessage;
    var g := h.(lastActivity := now);
    if h.authenticated && m.kind == GET_LESSON_CONTENT_REQUEST {
      ContentHasNewline(Trim(m.payload));
      ContentAnswer(db, g, m);
    } else {
      hide Dispatch;
      DispatchReply(db, g, m);
    }
  }

  lemma ContentAnswer(db: Db, h: Handler, m: Message)
    requires m.kind == GET_LESSON_CONTENT_REQUEST
    ensures Answer(db, h, m) == NewMessage(GET_LESSON_CONTENT_RESPONSE, LessonContent(Trim(m.payload)))
    ensures Constructed(Answer(db, h, m)) && Answer(db, h, m).payload == LessonContent(Trim(m.payload))
  {
    hide LessonContent, Trim;
  }

  /** Exactly which replies reach the client: no lesson content, at most 8192 bytes, no CR at the end. */
  lemma ReplyDeliverable(db: Db, h: Handler, m: Message, now: int)
    requires CleanDb(db)
    ensures var r := Handle(db, h, m, now).reply;
            Deliverable(r) <==> !(h.authenticated && m.kind == GET_LESSON_CONTENT_REQUEST)
                                && |r.payload| <= MAX_MESSAGE_SIZE && !EndsWithCR(r.payload)
  {
    hide Handle;
    ReplyNewline(db, h, m, now);
  }
}
