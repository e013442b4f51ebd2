/** The in-memory database (src/db/Database.cpp): its tables as a value, and the class that updates them in place. */
module Storage {
  import opened CommonUtils
  import opened Decimal

  const STUDENT: u8 := 1
  const TEACHER: u8 := 2
  const ADMIN: u8 := 3

  const BEGINNER: u8 := 1
  const INTERMEDIATE: u8 := 2
  const ADVANCED: u8 := 3

  datatype User = User(username: string, passwordHash: string, role: u8, level: u8, score: int)

  datatype Session = Session(socket: int, username: string, role: u8)

  /** The tables; `hash` is the (implementation-defined) password hash. */
  datatype Db = Db(
    hash: string -> string,
    users: map<string, User>,
    sessions: map<string, Session>,
    socketToUser: map<int, string>,
    lessons: map<string, seq<string>>,
    gameItems: map<string, seq<string>>,
    feedbacks: map<string, seq<string>>)

  // ---------------------------------------------------------------- the tables as values

  function WithUser(db: Db, username: string, passwordHash: string, role: u8): Db {
    if username in db.users then db
    else db.(users := db.users[username := User(username, passwordHash, role, BEGINNER, 0)])
  }

  predicate Authenticates(db: Db, username: string, passwordHash: string) {
    username in db.users && db.users[username].passwordHash == passwordHash
  }

  function WithLevel(db: Db, username: string, level: u8): Db {
    if username !in db.users then db
    else db.(users := db.users[username := db.users[username].(level := level)])
  }

  function WithScore(db: Db, username: string, score: int): Db {
    if username !in db.users then db
    else db.(users := db.users[username := db.users[username].(score := db.users[username].score + score)])
  }

  function WithSession(db: Db, username: string, socket: int): Db {
    var role := if username in db.users then db.users[username].role else STUDENT;
    db.(sessions := db.sessions[username := Session(socket, username, role)],
        socketToUser := db.socketToUser[socket := username])
  }

  function WithoutSession(db: Db, username: string): Db {
    if username !in db.sessions then db
    else db.(sessions := db.sessions - {username},
             socketToUser := db.socketToUser - {db.sessions[username].socket})
  }

  function Appended(table: map<string, seq<string>>, key: string, entry: string): map<string, seq<string>> {
    table[key := Entries(table, key) + [entry]]
  }

  function Entries(table: map<string, seq<string>>, key: string): seq<string> {
    if key in table then table[key] else []
  }

  function FeedbackEntry(exerciseId: string, feedback: string, fromUser: string): string {
    "Exercise: " + exerciseId + " | From: " + fromUser + " | " + feedback
  }

  function LevelName(level: u8): string {
    if level == BEGINNER then "BEGINNER"
    else if level == INTERMEDIATE then "INTERMEDIATE"
    else if level == ADVANCED then "ADVANCED"
    else ""
  }

  function LessonsFor(db: Db, level: u8): seq<string> {
    Entries(db.lessons, LevelName(level))
  }

  /** The three lines that follow the title line of every lesson. */
  const CONTENT_TAIL: string := "Video: video_url" + ['\n'] + "Audio: audio_url" + ['\n'] + "Text: lesson_text"

  function LessonContent(lessonId: string): string {
    "Content for lesson: " + lessonId + ['\n'] + CONTENT_TAIL
  }

  const BEGINNER_LESSONS: seq<string> :=
    ["lesson_b1:Greetings and Introductions", "lesson_b2:Numbers and Time", "lesson_b3:Family and Friends"]
  const INTERMEDIATE_LESSONS: seq<string> :=
    ["lesson_i1:Travel and Transportation", "lesson_i2:Food and Cooking", "lesson_i3:Work and Career"]
  const ADVANCED_LESSONS: seq<string> :=
    ["lesson_a1:Business Communication", "lesson_a2:Academic Writing", "lesson_a3:Cultural Studies"]

  const SAMPLE_LESSONS: map<string, seq<string>> :=
    map["BEGINNER" := BEGINNER_LESSONS, "INTERMEDIATE" := INTERMEDIATE_LESSONS, "ADVANCED" := ADVANCED_LESSONS]

  function EmptyDb(hash: string -> string): Db {
    Db(hash, map[], map[], map[], map[], map[], map[])
  }

  /** The tables after `initialize`. */
  function InitialDb(hash: string -> string): Db {
    var db := EmptyDb(hash).(lessons := SAMPLE_LESSONS);
    WithUser(WithUser(db, "admin", hash("admin123"), ADMIN), "teacher1", hash("teacher123"), TEACHER)
  }

  // ---------------------------------------------------------------- ending several sessions at once

  /** What ending the sessions of all of `names` leaves, in whatever order they are ended. */
  function WithoutSessions(db: Db, names: set<string>): Db {
    db.(sessions := db.sessions - names,
        socketToUser := db.socketToUser - set u | u in names && u in db.sessions :: db.sessions[u].socket)
  }

  lemma WithoutNoSessions(db: Db, names: set<string>)
    requires names * db.sessions.Keys == {}
    ensures WithoutSessions(db, names) == db
  {
    var sockets := set u | u in names && u in db.sessions :: db.sessions[u].socket;
    assert forall u :: u in names && u in db.sessions ==> u in names * db.sessions.Keys;
    assert sockets == {};
    assert db.sessions - names == db.sessions;
    assert db.socketToUser - sockets == db.socketToUser;
  }

  lemma WithoutOneMore(db: Db, names: set<string>, username: string)
    ensures WithoutSession(WithoutSessions(db, names), username) == WithoutSessions(db, names + {username})
  {
    var some := WithoutSessions(db, names);
    var sockets := set u | u in names && u in db.sessions :: db.sessions[u].socket;
    var more := set u | u in names + {username} && u in db.sessions :: db.sessions[u].socket;
    assert db.sessions - (names + {username}) == some.sessions - {username};
    if username in some.sessions {
      assert more == sockets + {db.sessions[username].socket};
      assert db.socketToUser - more == some.socketToUser - {db.sessions[username].socket};
    } else {
      assert some.sessions - {username} == some.sessions;
      assert more == sockets;
    }
  }

  lemma WithoutUnion(db: Db, a: set<string>, b: set<string>)
    ensures WithoutSessions(WithoutSessions(db, a), b) == WithoutSessions(db, a + b)
  {
    var some := WithoutSessions(db, a);
    var sa := set u | u in a && u in db.sessions :: db.sessions[u].socket;
    var sb := set u | u in b && u in some.sessions :: some.sessions[u].socket;
    var sab := set u | u in a + b && u in db.sessions :: db.sessions[u].socket;
    assert db.sessions - (a + b) == some.sessions - b;
    assert sab == sa + sb;
    assert db.socketToUser - sab == some.socketToUser - sb;
  }

  // ---------------------------------------------------------------- the class

  class Database {
    const hash: string -> string
    var users: map<string, User>
    var sessions: map<string, Session>
    var socketToUser: map<int, string>
    var lessons: map<string, seq<string>>
    var gameItems: map<string, seq<string>>
    var feedbacks: map<string, seq<string>>

    ghost function View(): Db
      reads this
    {
      Db(hash, users, sessions, socketToUser, lessons, gameItems, feedbacks)
    }

    constructor (hash: string -> string)
      ensures View() == EmptyDb(hash)
    {
      this.hash := hash;
      users, sessions, socketToUser := map[], map[], map[];
      lessons, gameItems, feedbacks := map[], map[], map[];
    }

    method Initialize()
      requires View() == EmptyDb(hash)
      modifies this
      ensures View() == InitialDb(hash)
    {
      lessons := lessons["BEGINNER" := BEGINNER_LESSONS];
      lessons := lessons["INTERMEDIATE" := INTERMEDIATE_LESSONS];
      lessons := lessons["ADVANCED" := ADVANCED_LESSONS];
      assert lessons == SAMPLE_LESSONS;
      var _ := CreateUser("admin", hash("admin123"), ADMIN);
      var _ := CreateUser("teacher1", hash("teacher123"), TEACHER);
    }

    method CreateUser(username: string, passwordHash: string, role: u8) returns (ok: bool)
      modifies this
      ensures ok == (username !in old(users)) && View() == WithUser(old(View()), username, passwordHash, role)
    {
      if username in users {
        return false;
      }
      users := users[username := User(username, passwordHash, role, BEGINNER, 0)];
      ok := true;
    }

    method AuthenticateUser(username: string, passwordHash: string) returns (ok: bool)
      ensures ok == Authenticates(View(), username, passwordHash)
    {
      if username !in users {
        return false;
      }
      ok := users[username].passwordHash == passwordHash;
    }

    method GetUserData(username: string) returns (user: Option<User>)
      ensures user.Some? <==> username in users
      ensures user.Some? ==> user.value == users[username]
    {
      user := if username in users then Some(users[username]) else None;
    }

    method UserExists(username: string) returns (found: bool)
      ensures found == (username in users)
    {
      found := username in users;
    }

    method UpdateUserLevel(username: string, level: u8) returns (ok: bool)
      modifies this
      ensures ok == (username in old(users)) && View() == WithLevel(old(View()), username, level)
    {
      if username !in users {
        return false;
      }
      users := users[username := users[username].(level := level)];
      ok := true;
    }

    /** `saveScore` only passes the call on to this update. */
    method UpdateUserScore(username: string, score: int) returns (ok: bool)
      modifies this
      ensures ok == (username in old(users)) && View() == WithScore(old(View()), username, score)
    {
      if username !in users {
        return false;
      }
      users := users[username := users[username].(score := users[username].score + score)];
      ok := true;
    }

    method CreateSession(username: string, socket: int)
      modifies this
      ensures View() == WithSession(old(View()), username, socket)
    {
      var session := Session(socket, username, STUDENT);
      if username in users {
        session := session.(role := users[username].role);
      }
      sessions := sessions[username := session];
      socketToUser := socketToUser[socket := username];
    }

    method RemoveSession(username: string) returns (ok: bool)
      modifies this
      ensures ok == (username in old(sessions)) && View() == WithoutSession(old(View()), username)
    {
      if username !in sessions {
        return false;
      }
      var socket := sessions[username].socket;
      sessions := sessions - {username};
      socketToUser := socketToUser - {socket};
      ok := true;
    }

    method GetLessonList(level: u8) returns (list: seq<string>)
      ensures list == LessonsFor(View(), level)
    {
      var levelStr := LevelName(level);
      if levelStr !in lessons {
        return [];
      }
      list := lessons[levelStr];
    }

    method SaveFeedback(username: string, exerciseId: string, feedback: string, fromUser: string) returns (ok: bool)
      modifies this
      ensures ok
      ensures View() == old(View()).(feedbacks :=
                Appended(old(feedbacks), username, FeedbackEntry(exerciseId, feedback, fromUser)))
    {
      var entry := "Exercise: " + exerciseId + " | From: " + fromUser + " | " + feedback;
      feedbacks := feedbacks[username := Entries(feedbacks, username) + [entry]];
      ok := true;
    }

    method AddGameItem(gameType: string, itemData: string) returns (ok: bool)
      modifies this
      ensures ok
      ensures View() == old(View()).(gameItems := Appended(old(gameItems), gameType, itemData))
    {
      gameItems := gameItems[gameType := Entries(gameItems, gameType) + [itemData]];
      ok := true;
    }
  }
}
