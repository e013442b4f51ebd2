/** Each kind of request: exactly when it is accepted, and what it then changes and replies. */
module RequestOutcomes {
  import opened CommonUtils
  import opened Decimal
  import opened MessageStructs
  import opened PayloadParser
  import opened Storage
  import opened Handling

  /** Only the time of the last activity has changed. */
  ghost predicate Nothing(db: Db, h: Handler, now: int, o: Outcome) {
    o.db == db && o.handler == h.(lastActivity := now)
  }

  /** The numbers in front of the texts of errors and acknowledgements. */
  lemma Codes()
    ensures ToString(0) == "0" && ToString(5) == "5" && ToString(10) == "10"
    ensures ToString(0) + "|" == "0|" && ToString(1) + "|" == "1|" && ToString(2) + "|" == "2|"
    ensures ToString(3) + "|" == "3|" && ToString(5) + "|" == "5|"
    ensures ToString(6) + "|" == "6|" && ToString(10) + "|" == "10|"
  {
    assert Digits(10) == Digits(1) + [DigitChar(0)];
    assert DigitChar(0) == '0' && DigitChar(1) == '1' && DigitChar(2) == '2' && DigitChar(3) == '3';
    assert DigitChar(5) == '5' && DigitChar(6) == '6';
  }

  // ---------------------------------------------------------------- accounts

  predicate StoredWith(db: Db, c: Option<Credentials>) {
    c.Some? && c.value.username in db.users && db.users[c.value.username].passwordHash == db.hash(c.value.password)
  }

  /** A login succeeds exactly with the password hash of a stored user; a wrong one changes nothing. */
  lemma LoginExactly(db: Db, h: Handler, m: Message, now: int)
    requires m.kind == LOGIN_REQUEST
    ensures var o, c := Handle(db, h, m, now), ParseLogin(m.payload);
            if StoredWith(db, c) then
              var user := db.users[c.value.username];
              o.reply.kind == LOGIN_SUCCESS && o.db.users == db.users
              && o.handler == Handler(h.socket, true, c.value.username, user.role, user.level, now)
            else
              Nothing(db, h, now, o)
              && o.reply == if c == None then NewMessage(ERROR_MESSAGE, "1|" + "Invalid login data")
                            else NewMessage(LOGIN_FAILED, "2|" + "Invalid username or password")
  {
    hide ParseLogin, LoginText, ToString;
    Codes();
  }

  /** No other message logs anybody in. */
  lemma OnlyLoginLogsIn(db: Db, h: Handler, m: Message, now: int)
    requires m.kind != LOGIN_REQUEST
    ensures var o := Handle(db, h, m, now);
            o.reply.kind != LOGIN_SUCCESS && (o.handler.authenticated ==> h.authenticated)
            && (o.handler.authenticated ==> o.handler.username == h.username && o.handler.role == h.role)
  {
    hide ParseRegister, ParseLevel, ParseChat, Split, Trim, ToString, JoinEntries, ItemsText, LessonContent;
    hide ErrorText, SuccessText, FeedbackEntry, Appended, LoginText, Login;
  }

  /** A registration succeeds exactly if it is well formed and the name is free; otherwise nothing changes. */
  lemma RegisterExactly(db: Db, h: Handler, m: Message, now: int)
    requires m.kind == REGISTER_REQUEST
    ensures var o, r := Handle(db, h, m, now), ParseRegister(m.payload);
            if r.Some? && r.value.username !in db.users then
              var user := User(r.value.username, db.hash(r.value.password), r.value.role, 1, 0);
              o.db == db.(users := db.users[user.username := user]) && o.handler == h.(lastActivity := now)
              && o.reply == NewMessage(REGISTER_SUCCESS, "0")
            else
              Nothing(db, h, now, o)
              && o.reply == if r == None then NewMessage(ERROR_MESSAGE, "1|" + "Invalid registration data")
                            else NewMessage(REGISTER_FAILED, "3|" + "Username already exists")
  {
    hide ParseRegister, ToString;
    Codes();
  }

  /** A role field without a number is refused, and nobody is registered. */
  lemma RegisterWithoutRole(db: Db, h: Handler, m: Message, now: int)
    requires m.kind == REGISTER_REQUEST && |Split(m.payload, '|')| >= 3 && NoNumber(Split(m.payload, '|')[2])
    ensures Nothing(db, h, now, Handle(db, h, m, now))
    ensures Handle(db, h, m, now).reply == NewMessage(ERROR_MESSAGE, "1|" + "Invalid registration data")
  {
    hide Handle, ParseRegister, Split, NoNumber;
    RegisterParsesExactly(m.payload);
    RegisterExactly(db, h, m, now);
  }

  /** A logout succeeds exactly when logged in; role and level stay cached. */
  lemma LogoutExactly(db: Db, h: Handler, m: Message, now: int)
    requires m.kind == LOGOUT_REQUEST
    ensures var o := Handle(db, h, m, now);
            if h.authenticated then
              o.reply == NewMessage(LOGOUT_SUCCESS, "0") && h.username !in o.db.sessions && o.db.users == db.users
              && o.handler == Handler(h.socket, false, "", h.role, h.level, now)
            else
              Nothing(db, h, now, o) && o.reply == NewMessage(ERROR_MESSAGE, "5|" + "Not logged in")
  {
    hide ToString;
    Codes();
  }

  /** The accounts that the database starts with. */
  lemma DefaultAccounts(hash: string -> string)
    ensures InitialDb(hash).users == map["admin" := User("admin", hash("admin123"), 3, 1, 0),
                                         "teacher1" := User("teacher1", hash("teacher123"), 2, 1, 0)]
  {
    hide SAMPLE_LESSONS;
  }

  /** Without a login, the requests that read or change the tables are refused, all with the same words. */
  lemma GuestsRefused(db: Db, h: Handler, m: Message, now: int)
    requires !h.authenticated && (Reading(m.kind) || Writing(m.kind))
    ensures Nothing(db, h, now, Handle(db, h, m, now))
    ensures Handle(db, h, m, now).reply == NewMessage(ERROR_MESSAGE, "5|" + "Authentication required")
  {
    hide ToString, Write, Answer;
    Codes();
  }

  // ---------------------------------------------------------------- requests that change the tables

  /** The level asked for is stored and cached, for this user and this connection; nothing else changes. */
  lemma SetLevelExactly(db: Db, h: Handler, m: Message, now: int)
    requires m.kind == SET_LEVEL_REQUEST && h.authenticated && h.username in db.users
    ensures var o, n := Handle(db, h, m, now), ParseLevel(m.payload);
            if n.Some? then
              o.db == db.(users := db.users[h.username := db.users[h.username].(level := n.value)])
              && o.handler == h.(lastActivity := now, level := n.value) && o.reply == NewMessage(SET_LEVEL_SUCCESS, "0")
            else
              Nothing(db, h, now, o) && o.reply == NewMessage(ERROR_MESSAGE, "10|" + "Invalid level")
  {
    hide ParseLevel, ToString;
    Codes();
  }

  /** A quiz or exercise counts exactly with two fields, and the reply names the points that are credited. */
  lemma SubmissionExactly(db: Db, h: Handler, m: Message, now: int)
    requires (m.kind == SUBMIT_QUIZ_REQUEST || m.kind == SUBMIT_EXERCISE_REQUEST)
    requires h.authenticated && h.username in db.users
    ensures var o := Handle(db, h, m, now);
            if |Split(m.payload, '|')| >= 2 then
              var user, points := db.users[h.username], if m.kind == SUBMIT_QUIZ_REQUEST then 10 else 5;
              o.reply.kind == (if m.kind == SUBMIT_QUIZ_REQUEST then SUBMIT_QUIZ_RESPONSE else SUBMIT_EXERCISE_RESPONSE)
              && |Split(o.reply.payload, '|')| >= 1 && Stoi(Split(o.reply.payload, '|')[0]) == Some(points)
              && o.db == db.(users := db.users[h.username := user.(score := user.score + points)])
              && o.handler == h.(lastActivity := now)
            else
              Nothing(db, h, now, o) && o.reply.kind == ERROR_MESSAGE
  {
    hide Split, Stoi, ToString, ErrorText;
    PointsPrinted();
  }

  lemma PointsPrinted()
    ensures Split(ToString(10) + "|Correct answers: 1/1", '|') == ["10", "Correct answers: 1/1"]
    ensures Split(ToString(5), '|') == ["5"]
    ensures Stoi("10") == Some(10) && Stoi("5") == Some(5)
  {
    hide Split, Stoi, ToString;
    Codes();
    StoiDigits(10);
    StoiDigits(5);
    assert "10" + "|Correct answers: 1/1" == "10" + ['|'] + "Correct answers: 1/1";
    NoBars();
    SplitStep("10", '|', "Correct answers: 1/1");
    SplitLast("Correct answers: 1/1", '|');
    SplitLast("5", '|');
    Printed(10);
    Printed(5);
  }

  lemma Printed(n: nat)
    ensures ToString(n) == Digits(n)
  {
  }

  lemma NoBars()
    ensures '|' !in "10" && '|' !in "5" && '|' !in "Correct answers: 1/1"
  {
  }

  /** Feedback is taken exactly from a teacher or administrator and with three fields. */
  lemma SendFeedbackExactly(db: Db, h: Handler, m: Message, now: int)
    requires m.kind == SEND_FEEDBACK_REQUEST && h.authenticated
    ensures var o, parts := Handle(db, h, m, now), Split(m.payload, '|');
            if (h.role == 2 || h.role == 3) && |parts| >= 3 then
              o.reply == NewMessage(SEND_FEEDBACK_SUCCESS, "0") && o.handler == h.(lastActivity := now)
              && o.db == db.(feedbacks := db.feedbacks[parts[0] :=
                               (if parts[0] in db.feedbacks then db.feedbacks[parts[0]] else [])
                               + ["Exercise: " + parts[1] + " | From: " + h.username + " | " + parts[2]]])
            else
              Nothing(db, h, now, o)
              && o.reply == if h.role != 2 && h.role != 3
                            then NewMessage(ERROR_MESSAGE, "6|" + "Only teachers can send feedback")
                            else NewMessage(ERROR_MESSAGE, "1|" + "Invalid feedback format")
  {
    hide Split, ToString;
    Codes();
  }

  /** A game item is taken exactly from an administrator and with two fields. */
  lemma AddGameItemExactly(db: Db, h: Handler, m: Message, now: int)
    requires m.kind == ADD_GAME_ITEM_REQUEST && h.authenticated
    ensures var o, parts := Handle(db, h, m, now), Split(m.payload, '|');
            if h.role == 3 && |parts| >= 2 then
              o.reply == NewMessage(ADD_GAME_ITEM_SUCCESS, "0") && o.handler == h.(lastActivity := now)
              && o.db == db.(gameItems := db.gameItems[parts[0] :=
                               (if parts[0] in db.gameItems then db.gameItems[parts[0]] else []) + [parts[1]]])
            else
              Nothing(db, h, now, o)
              && o.reply == if h.role != 3 then NewMessage(ADD_GAME_ITEM_FAILED, "6|" + "Admin access required")
                            else NewMessage(ADD_GAME_ITEM_FAILED, "1|" + "Invalid format")
  {
    hide Split, ToString;
    Codes();
  }

  // ---------------------------------------------------------------- requests that only read

  /** A started game lists its items, each with a semicolon behind it. */
  lemma {:induction false} ItemsSplit(items: seq<string>)
    ensures Split(ItemsText(items), ';') == items <==> AllFree(items, ';')
    decreases |items|
  {
    hide Split;
    SplitClean(ItemsText(items), ';');
    if items == [] {
      SplitLast("", ';');
    } else {
      var rest := ItemsText(items[1..]);
      ItemsSplit(items[1..]);
      assert ItemsText(items) == items[0] + [';'] + rest;
      if ';' !in items[0] {
        SplitStep(items[0], ';', rest);
        assert items == [items[0]] + items[1..];
        FreeHead(items);
      }
    }
  }

  lemma FreeHead(items: seq<string>)
    requires items != [] && ';' !in items[0]
    ensures AllFree(items, ';') <==> AllFree(items[1..], ';')
  {
    assert forall i :: 0 < i < |items| ==> items[i] == items[1..][i - 1];
  }

  /** Requests that read change nothing; what they reply where no list or number is involved. */
  lemma ReadingExactly(db: Db, h: Handler, m: Message, now: int)
    requires Reading(m.kind) && h.authenticated
    ensures Nothing(db, h, now, Handle(db, h, m, now))
    ensures var r := Handle(db, h, m, now).reply;
            (m.kind == CHAT_MESSAGE ==>
               r == if ParseChat(m.payload).Some? then NewMessage(CHAT_MESSAGE_ACK, "0|" + "Message sent")
                    else NewMessage(ERROR_MESSAGE, "1|" + "Invalid chat message"))
            && (m.kind == GAME_MOVE_REQUEST ==> r == NewMessage(GAME_MOVE_RESPONSE, "move_accepted|score:10"))
            && (m.kind == VOICE_CALL_REQUEST ==> r == NewMessage(VOICE_CALL_ACCEPT, "call_session_id_123"))
  {
    hide ParseChat, ToString, JoinEntries, ItemsText, LessonContent, Trim, Entries, LevelName;
    Codes();
    assert "|" + "Message sent" == "|Message sent";
    assert ToString(0) + "|Message sent" == "0|" + "Message sent";
  }

  /** The items of the game asked for, blanks around its name ignored, are what follows the session id. */
  lemma GameStartExactly(db: Db, h: Handler, m: Message, now: int)
    requires m.kind == GAME_START_REQUEST && h.authenticated
    ensures var r, game := Handle(db, h, m, now).reply, Trim(m.payload);
            var items := if game in db.gameItems then db.gameItems[game] else [];
            r == NewMessage(GAME_START_RESPONSE, "game_session_id_123|" + ItemsText(items))
            && (Split(ItemsText(items), ';') == items <==> AllFree(items, ';'))
  {
    hide Split, ItemsText, Trim;
    var game := Trim(m.payload);
    ItemsSplit(if game in db.gameItems then db.gameItems[game] else []);
  }

  /** Lesson content: four lines, of which the first names the lesson, blanks around its name ignored. */
  lemma LessonContentExactly(db: Db, h: Handler, m: Message, now: int)
    requires m.kind == GET_LESSON_CONTENT_REQUEST && h.authenticated
    ensures Handle(db, h, m, now).reply
         == NewMessage(GET_LESSON_CONTENT_RESPONSE,
                       "Content for lesson: " + Trim(m.payload) + ['\n']
                       + ("Video: video_url" + ['\n'] + "Audio: audio_url" + ['\n'] + "Text: lesson_text"))
  {
    hide Trim;
  }

  /** Heartbeats are answered for anybody; a type that no handler knows is an error for anybody. */
  lemma OtherMessages(db: Db, h: Handler, m: Message, now: int)
    requires !Reading(m.kind) && !Writing(m.kind)
    requires m.kind != REGISTER_REQUEST && m.kind != LOGIN_REQUEST && m.kind != LOGOUT_REQUEST
    ensures Nothing(db, h, now, Handle(db, h, m, now))
    ensures Handle(db, h, m, now).reply
         == if m.kind == HEARTBEAT_REQUEST then NewMessage(HEARTBEAT_RESPONSE, "pong")
            else NewMessage(ERROR_MESSAGE, "1|" + "Unknown message type")
  {
    hide ToString, Register, Login, Logout, Write, Answer;
    Codes();
  }
}
