/** One connection's handler (src/server/ClientHandler.cpp). */
module Handling {
  import opened CommonUtils
  import opened Decimal
  import opened MessageStructs
  import opened PayloadParser
  import opened Storage

  const INVALID_FORMAT: u16 := 1
  const INVALID_CREDENTIALS: u16 := 2
  const USER_ALREADY_EXISTS: u16 := 3
  const NOT_AUTHENTICATED: u16 := 5
  const PERMISSION_DENIED: u16 := 6
  const DATABASE_ERROR: u16 := 9
  const INVALID_PARAMETER: u16 := 10

  const QUIZ_POINTS: int := 10
  const EXERCISE_POINTS: int := 5

  /** Clock ticks per second of the steady clock. */
  const SECOND: int := 1_000_000_000
  const TIMEOUT_SECONDS: int := 300

  datatype Handler = Handler(
    socket: int, authenticated: bool, username: string, role: u8, level: u8, lastActivity: int)

  function NewHandler(socket: int, now: int): Handler {
    Handler(socket, false, "", STUDENT, BEGINNER, now)
  }

  /** `duration_cast<seconds>` truncates toward zero. */
  function WholeSeconds(ticks: int): int {
    if ticks >= 0 then ticks / SECOND else -((-ticks) / SECOND)
  }

  predicate TimedOut(h: Handler, now: int) {
    WholeSeconds(now - h.lastActivity) > TIMEOUT_SECONDS
  }

  /** Whole-second truncation and `> 300` together mean: 301 full seconds. */
  lemma TimedOutExactly(h: Handler, now: int)
    ensures TimedOut(h, now) <==> now - h.lastActivity >= 301 * SECOND
  {
  }

  // ---------------------------------------------------------------- what handling one message does

  /** The tables and the handler afterwards, and the reply. */
  datatype Outcome = Outcome(db: Db, handler: Handler, reply: Message)

  function Error(code: u16, description: string): Message {
    NewMessage(ERROR_MESSAGE, ErrorText(code, description))
  }

  function Success(kind: u16): Message {
    NewMessage(kind, SuccessText(""))
  }

  const LOGIN_FIRST: Message := Error(NOT_AUTHENTICATED, "Authentication required")
  const NOT_LOGGED_IN: Message := Error(NOT_AUTHENTICATED, "Not logged in")

  function Register(db: Db, h: Handler, payload: string): Outcome {
    match ParseRegister(payload)
    case None => Outcome(db, h, Error(INVALID_FORMAT, "Invalid registration data"))
    case Some(r) =>
      if r.username in db.users then
        Outcome(db, h, NewMessage(REGISTER_FAILED, ErrorText(USER_ALREADY_EXISTS, "Username already exists")))
      else
        Outcome(WithUser(db, r.username, db.hash(r.password), r.role), h, Success(REGISTER_SUCCESS))
  }

  /** The user that a login payload logs in, if it does. */
  function LoginUser(db: Db, payload: string): Option<string> {
    match ParseLogin(payload)
    case None => None
    case Some(c) => if Authenticates(db, c.username, db.hash(c.password)) then Some(c.username) else None
  }

  function LoginText(user: User): string {
    ToString(user.role) + ['|'] + ToString(user.level) + ['|'] + ToString(user.score)
  }

  function Login(db: Db, h: Handler, payload: string): Outcome {
    match LoginUser(db, payload)
    case None =>
      Outcome(db, h,
              if ParseLogin(payload) == None then Error(INVALID_FORMAT, "Invalid login data")
              else NewMessage(LOGIN_FAILED, ErrorText(INVALID_CREDENTIALS, "Invalid username or password")))
    case Some(username) =>
      var user := db.users[username];
      Outcome(WithSession(db, username, h.socket),
              h.(authenticated := true, username := username, role := user.role, level := user.level),
              NewMessage(LOGIN_SUCCESS, LoginText(user)))
  }

  function Logout(db: Db, h: Handler): Outcome {
    if !h.authenticated then Outcome(db, h, NOT_LOGGED_IN)
    else Outcome(WithoutSession(db, h.username), h.(authenticated := false, username := ""), Success(LOGOUT_SUCCESS))
  }

  function SetLevel(db: Db, h: Handler, payload: string): Outcome {
    match ParseLevel(payload)
    case None => Outcome(db, h, Error(INVALID_PARAMETER, "Invalid level"))
    case Some(level) =>
      if h.username in db.users then
        Outcome(WithLevel(db, h.username, level), h.(level := level), Success(SET_LEVEL_SUCCESS))
      else
        Outcome(db, h, NewMessage(SET_LEVEL_FAILED, ErrorText(DATABASE_ERROR, "Failed to update level")))
  }

  function SubmitQuiz(db: Db, h: Handler, payload: string): Outcome {
    if |Split(payload, '|')| < 2 then Outcome(db, h, Error(INVALID_FORMAT, "Invalid quiz submission"))
    else Outcome(WithScore(db, h.username, QUIZ_POINTS), h,
                 NewMessage(SUBMIT_QUIZ_RESPONSE, ToString(QUIZ_POINTS) + "|Correct answers: 1/1"))
  }

  function SubmitExercise(db: Db, h: Handler, payload: string): Outcome {
    if |Split(payload, '|')| < 2 then Outcome(db, h, Error(INVALID_FORMAT, "Invalid exercise submission"))
    else Outcome(WithScore(db, h.username, EXERCISE_POINTS), h,
                 NewMessage(SUBMIT_EXERCISE_RESPONSE, ToString(EXERCISE_POINTS)))
  }

  function SendFeedback(db: Db, h: Handler, payload: string): Outcome {
    var parts := Split(payload, '|');
    if h.role != TEACHER && h.role != ADMIN then
      Outcome(db, h, Error(PERMISSION_DENIED, "Only teachers can send feedback"))
    else if |parts| < 3 then Outcome(db, h, Error(INVALID_FORMAT, "Invalid feedback format"))
    else Outcome(db.(feedbacks := Appended(db.feedbacks, parts[0], FeedbackEntry(parts[1], parts[2], h.username))), h,
                 Success(SEND_FEEDBACK_SUCCESS))
  }

  function AddGameItem(db: Db, h: Handler, payload: string): Outcome {
    var parts := Split(payload, '|');
    if h.role != ADMIN then
      Outcome(db, h, NewMessage(ADD_GAME_ITEM_FAILED, ErrorText(PERMISSION_DENIED, "Admin access required")))
    else if |parts| < 2 then
      Outcome(db, h, NewMessage(ADD_GAME_ITEM_FAILED, ErrorText(INVALID_FORMAT, "Invalid format")))
    else Outcome(db.(gameItems := Appended(db.gameItems, parts[0], parts[1])), h, Success(ADD_GAME_ITEM_SUCCESS))
  }

  function ItemsText(items: seq<string>): string
    decreases |items|
  {
    if items == [] then "" else items[0] + ";" + ItemsText(items[1..])
  }

  /** The replies of the requests that only read. */
  function Answer(db: Db, h: Handler, m: Message): Message {
    if m.kind == GET_LESSON_LIST_REQUEST then
      NewMessage(GET_LESSON_LIST_RESPONSE, JoinEntries(LessonsFor(db, h.level)))
    else if m.kind == GET_LESSON_CONTENT_REQUEST then
      NewMessage(GET_LESSON_CONTENT_RESPONSE, LessonContent(Trim(m.payload)))
    else if m.kind == GAME_START_REQUEST then
      NewMessage(GAME_START_RESPONSE, "game_session_id_123|" + ItemsText(Entries(db.gameItems, Trim(m.payload))))
    else if m.kind == GAME_MOVE_REQUEST then NewMessage(GAME_MOVE_RESPONSE, "move_accepted|score:10")
    else if m.kind == GET_SCORE_REQUEST then
      if h.username in db.users then NewMessage(GET_SCORE_RESPONSE, ToString(db.users[h.username].score))
      else Error(DATABASE_ERROR, "Failed to retrieve score")
    else if m.kind == GET_FEEDBACK_REQUEST then
      NewMessage(GET_FEEDBACK_RESPONSE, JoinEntries(Entries(db.feedbacks, h.username)))
    else if m.kind == CHAT_MESSAGE then
      if ParseChat(m.payload) == None then Error(INVALID_FORMAT, "Invalid chat message")
      else NewMessage(CHAT_MESSAGE_ACK, SuccessText("Message sent"))
    else NewMessage(VOICE_CALL_ACCEPT, "call_session_id_123")
  }

  /** The requests that only read, for an authenticated user. */
  predicate Reading(kind: u16) {
    kind == GET_LESSON_LIST_REQUEST || kind == GET_LESSON_CONTENT_REQUEST || kind == GAME_START_REQUEST
    || kind == GAME_MOVE_REQUEST || kind == GET_SCORE_REQUEST || kind == GET_FEEDBACK_REQUEST
    || kind == CHAT_MESSAGE || kind == VOICE_CALL_REQUEST
  }

  /** The requests that change the tables, for an authenticated user. */
  predicate Writing(kind: u16) {
    kind == SET_LEVEL_REQUEST || kind == SUBMIT_QUIZ_REQUEST || kind == SUBMIT_EXERCISE_REQUEST
    || kind == SEND_FEEDBACK_REQUEST || kind == ADD_GAME_ITEM_REQUEST
  }

  function Write(db: Db, h: Handler, m: Message): Outcome {
    if m.kind == SET_LEVEL_REQUEST then SetLevel(db, h, m.payload)
    else if m.kind == SUBMIT_QUIZ_REQUEST then SubmitQuiz(db, h, m.payload)
    else if m.kind == SUBMIT_EXERCISE_REQUEST then SubmitExercise(db, h, m.payload)
    else if m.kind == SEND_FEEDBACK_REQUEST then SendFeedback(db, h, m.payload)
    else AddGameItem(db, h, m.payload)
  }

  function Dispatch(db: Db, h: Handler, m: Message): Outcome {
    if m.kind == REGISTER_REQUEST then Register(db, h, m.payload)
    else if m.kind == LOGIN_REQUEST then Login(db, h, m.payload)
    else if m.kind == LOGOUT_REQUEST then Logout(db, h)
    else if m.kind == HEARTBEAT_REQUEST then Outcome(db, h, NewMessage(HEARTBEAT_RESPONSE, "pong"))
    else if Writing(m.kind) then if h.authenticated then Write(db, h, m) else Outcome(db, h, LOGIN_FIRST)
    else if Reading(m.kind) then Outcome(db, h, if h.authenticated then Answer(db, h, m) else LOGIN_FIRST)
    else Outcome(db, h, Error(INVALID_FORMAT, "Unknown message type"))
  }

  function Handle(db: Db, h: Handler, m: Message, now: int): Outcome {
    Dispatch(db, h.(lastActivity := now), m)
  }

  // ---------------------------------------------------------------- the class

  class ClientHandler {
    const socket: int
    const db: Database
    var authenticated: bool
    var username: string
    var role: u8
    var level: u8
    var lastActivity: int

    ghost function View(): Handler
      reads this
    {
      Handler(socket, authenticated, username, role, level, lastActivity)
    }

    constructor (socket: int, db: Database, now: int)
      ensures this.db == db && View() == NewHandler(socket, now)
    {
      this.socket, this.db := socket, db;
      authenticated, username, role, level := false, "", STUDENT, BEGINNER;
      lastActivity := now;
    }

    /** The destructor: this is what ends the session of a lost connection. */
    method Destroy()
      modifies db
      ensures db.View() == if authenticated then WithoutSession(old(db.View()), username) else old(db.View())
    {
      if authenticated {
        var _ := db.RemoveSession(username);
      }
    }

    /** Late after a whole second more than the limit; below zero, where truncation rounds up, right after it. */
    method IsTimedOut(now: int, timeoutSeconds: int) returns (late: bool)
      ensures timeoutSeconds >= 0 ==> (late <==> now - lastActivity >= (timeoutSeconds + 1) * SECOND)
      ensures timeoutSeconds < 0 ==> (late <==> now - lastActivity > timeoutSeconds * SECOND)
    {
      var elapsed := WholeSeconds(now - lastActivity);
      late := elapsed > timeoutSeconds;
    }

    method ProcessMessage(message: Message, now: int) returns (reply: Message)
      modifies this, db
      ensures Outcome(db.View(), View(), reply) == Handle(old(db.View()), old(View()), message, now)
    {
      hide Register, Login, Logout, Write, Answer, Error, NewMessage;
      lastActivity := now;
      if message.kind == REGISTER_REQUEST {
        reply := HandleRegister(message);
      } else if message.kind == LOGIN_REQUEST {
        reply := HandleLogin(message);
      } else if message.kind == LOGOUT_REQUEST {
        reply := HandleLogout();
      } else if message.kind == HEARTBEAT_REQUEST {
        reply := NewMessage(HEARTBEAT_RESPONSE, "pong");
      } else if Writing(message.kind) {
        reply := HandleWriting(message);
      } else if Reading(message.kind) {
        reply := HandleReading(message);
      } else {
        reply := Error(INVALID_FORMAT, "Unknown message type");
      }
    }

    method HandleRegister(message: Message) returns (reply: Message)
      modifies db
      ensures Outcome(db.View(), View(), reply) == Register(old(db.View()), View(), message.payload)
    {
      hide ParseRegister, Error, NewMessage;
      var parsed := ParseRegister(message.payload);
      if parsed == None {
        return Error(INVALID_FORMAT, "Invalid registration data");
      }
      var taken := db.UserExists(parsed.value.username);
      if taken {
        return NewMessage(REGISTER_FAILED, ErrorText(USER_ALREADY_EXISTS, "Username already exists"));
      }
      var passwordHash := db.hash(parsed.value.password);
      var created := db.CreateUser(parsed.value.username, passwordHash, parsed.value.role);
      if created {
        return Success(REGISTER_SUCCESS);
      }
      reply := Error(DATABASE_ERROR, "Failed to create user");
    }

    method HandleLogin(message: Message) returns (reply: Message)
      modifies this, db
      ensures Outcome(db.View(), View(), reply) == Login(old(db.View()), old(View()), message.payload)
    {
      hide ParseLogin, Error, NewMessage, LoginText;
      var parsed := ParseLogin(message.payload);
      if parsed == None {
        return Error(INVALID_FORMAT, "Invalid login data");
      }
      var passwordHash := db.hash(parsed.value.password);
      var ok := db.AuthenticateUser(parsed.value.username, passwordHash);
      if !ok {
        return NewMessage(LOGIN_FAILED, ErrorText(INVALID_CREDENTIALS, "Invalid username or password"));
      }
      var userData := db.GetUserData(parsed.value.username);
      if userData == None {
        return Error(DATABASE_ERROR, "Failed to retrieve user data");
      }
      authenticated := true;
      username := parsed.value.username;
      role := userData.value.role;
      level := userData.value.level;
      db.CreateSession(username, socket);
      reply := NewMessage(LOGIN_SUCCESS, LoginText(userData.value));
    }

    method HandleLogout() returns (reply: Message)
      modifies this, db
      ensures Outcome(db.View(), View(), reply) == Logout(old(db.View()), old(View()))
    {
      hide Error, NewMessage;
      if !authenticated {
        return NOT_LOGGED_IN;
      }
      var _ := db.RemoveSession(username);
      authenticated := false;
      username := "";
      reply := Success(LOGOUT_SUCCESS);
    }

    method HandleWriting(message: Message) returns (reply: Message)
      requires Writing(message.kind)
      modifies this, db
      ensures Outcome(db.View(), View(), reply)
           == if old(authenticated) then Write(old(db.View()), old(View()), message)
              else Outcome(old(db.View()), old(View()), LOGIN_FIRST)
    {
      hide SetLevel, SubmitQuiz, SubmitExercise, SendFeedback, AddGameItem, Error, NewMessage;
      if !authenticated {
        return LOGIN_FIRST;
      }
      if message.kind == SET_LEVEL_REQUEST {
        reply := HandleSetLevel(message);
      } else if message.kind == SUBMIT_QUIZ_REQUEST {
        reply := HandleSubmitQuiz(message);
      } else if message.kind == SUBMIT_EXERCISE_REQUEST {
        reply := HandleSubmitExercise(message);
      } else if message.kind == SEND_FEEDBACK_REQUEST {
        reply := HandleSendFeedback(message);
      } else {
        reply := HandleAddGameItem(message);
      }
    }

    method HandleSetLevel(message: Message) returns (reply: Message)
      modifies this, db
      ensures Outcome(db.View(), View(), reply) == SetLevel(old(db.View()), old(View()), message.payload)
    {
      hide ParseLevel, Error, NewMessage;
      var parsed := ParseLevel(message.payload);
      if parsed == None {
        return Error(INVALID_PARAMETER, "Invalid level");
      }
      var ok := db.UpdateUserLevel(username, parsed.value);
      if ok {
        level := parsed.value;
        return Success(SET_LEVEL_SUCCESS);
      }
      reply := NewMessage(SET_LEVEL_FAILED, ErrorText(DATABASE_ERROR, "Failed to update level"));
    }

    method HandleSubmitQuiz(message: Message) returns (reply: Message)
      modifies db
      ensures Outcome(db.View(), View(), reply) == SubmitQuiz(old(db.View()), View(), message.payload)
    {
      hide Split, Error, NewMessage, ToString;
      var parts := SplitTokens(message.payload, '|');
      if |parts| < 2 {
        return Error(INVALID_FORMAT, "Invalid quiz submission");
      }
      var _ := db.UpdateUserScore(username, QUIZ_POINTS);
      reply := NewMessage(SUBMIT_QUIZ_RESPONSE, ToString(QUIZ_POINTS) + "|Correct answers: 1/1");
    }

    method HandleSubmitExercise(message: Message) returns (reply: Message)
      modifies db
      ensures Outcome(db.View(), View(), reply) == SubmitExercise(old(db.View()), View(), message.payload)
    {
      hide Split, Error, NewMessage, ToString;
      var parts := SplitTokens(message.payload, '|');
      if |parts| < 2 {
        return Error(INVALID_FORMAT, "Invalid exercise submission");
      }
      var _ := db.UpdateUserScore(username, EXERCISE_POINTS);
      reply := NewMessage(SUBMIT_EXERCISE_RESPONSE, ToString(EXERCISE_POINTS));
    }

    method HandleSendFeedback(message: Message) returns (reply: Message)
      modifies db
      ensures Outcome(db.View(), View(), reply) == SendFeedback(old(db.View()), View(), message.payload)
    {
      hide Split, Error, NewMessage, FeedbackEntry;
      if role != TEACHER && role != ADMIN {
        return Error(PERMISSION_DENIED, "Only teachers can send feedback");
      }
      var parts := SplitTokens(message.payload, '|');
      if |parts| < 3 {
        return Error(INVALID_FORMAT, "Invalid feedback format");
      }
      var saved := db.SaveFeedback(parts[0], parts[1], parts[2], username);
      if saved {
        return Success(SEND_FEEDBACK_SUCCESS);
      }
      reply := Error(DATABASE_ERROR, "Failed to save feedback");
    }

    method HandleAddGameItem(message: Message) returns (reply: Message)
      modifies db
      ensures Outcome(db.View(), View(), reply) == AddGameItem(old(db.View()), View(), message.payload)
    {
      hide Split, Error, NewMessage;
      if role != ADMIN {
        return NewMessage(ADD_GAME_ITEM_FAILED, ErrorText(PERMISSION_DENIED, "Admin access required"));
      }
      var parts := SplitTokens(message.payload, '|');
      if |parts| < 2 {
        return NewMessage(ADD_GAME_ITEM_FAILED, ErrorText(INVALID_FORMAT, "Invalid format"));
      }
      var added := db.AddGameItem(parts[0], parts[1]);
      if added {
        return Success(ADD_GAME_ITEM_SUCCESS);
      }
      reply := NewMessage(ADD_GAME_ITEM_FAILED, ErrorText(DATABASE_ERROR, "Failed to add item"));
    }

    method HandleReading(message: Message) returns (reply: Message)
      requires Reading(message.kind)
      ensures reply == if authenticated then Answer(db.View(), View(), message) else LOGIN_FIRST
    {
      hide Error, NewMessage, JoinEntries, ItemsText, LessonContent, Trim, ParseChat, LessonsFor, ToString;
      if !authenticated {
        return LOGIN_FIRST;
      }
      if message.kind == GET_LESSON_LIST_REQUEST {
        var lessons := db.GetLessonList(level);
        var response := JoinLoop(lessons);
        reply := NewMessage(GET_LESSON_LIST_RESPONSE, response);
      } else if message.kind == GET_LESSON_CONTENT_REQUEST {
        var lessonId := Trim(message.payload);
        reply := NewMessage(GET_LESSON_CONTENT_RESPONSE, LessonContent(lessonId));
      } else if message.kind == GAME_START_REQUEST {
        var items := Entries(db.gameItems, Trim(message.payload));
        var listed := ListItems(items);
        reply := NewMessage(GAME_START_RESPONSE, "game_session_id_123|" + listed);
      } else if message.kind == GAME_MOVE_REQUEST {
        reply := NewMessage(GAME_MOVE_RESPONSE, "move_accepted|score:10");
      } else if message.kind == GET_SCORE_REQUEST {
        var userData := db.GetUserData(username);
        if userData.Some? {
          return NewMessage(GET_SCORE_RESPONSE, ToString(userData.value.score));
        }
        reply := Error(DATABASE_ERROR, "Failed to retrieve score");
      } else if message.kind == GET_FEEDBACK_REQUEST {
        var response := JoinLoop(Entries(db.feedbacks, username));
        reply := NewMessage(GET_FEEDBACK_RESPONSE, response);
      } else if message.kind == CHAT_MESSAGE {
        if ParseChat(message.payload) == None {
          return Error(INVALID_FORMAT, "Invalid chat message");
        }
        reply := NewMessage(CHAT_MESSAGE_ACK, SuccessText("Message sent"));
      } else {
        reply := NewMessage(VOICE_CALL_ACCEPT, "call_session_id_123");
      }
    }

    method ListItems(items: seq<string>) returns (text: string)
      ensures text == ItemsText(items)
    {
      text := "";
      for i := 0 to |items|
        invariant text + ItemsText(items[i..]) == ItemsText(items)
      {
        assert items[i..][1..] == items[i + 1..];
        text := text + (items[i] + ";");
      }
    }
  }
}
