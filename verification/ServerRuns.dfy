/** What every run of the server keeps, whatever the clients send and whenever connections come and go. */
module ServerRuns {
  import opened CommonUtils
  import opened Decimal
  import opened MessageStructs
  import opened PayloadParser
  import opened Storage
  import opened Handling
  import opened HandlerEffects
  import opened RequestOutcomes
  import opened ServerCore

  // ---------------------------------------------------------------- identity

  /** Who a connection speaks for, unconditionally: even after repeated and concurrent logins. */
  ghost predicate Consistent(s: Server) {
    TablesIdentify(s.db)
    && forall k :: k in s.clients ==> HandlerIdentified(s.db, s.clients[k]) && s.clients[k].socket == k
  }

  lemma ReceiveIdentity(s: Server, socket: int, m: Message, now: int)
    requires Consistent(s)
    ensures Consistent(Receive(s, socket, m, now)) && Extends(s.db, Receive(s, socket, m, now).db)
  {
    hide Handle, TablesIdentify, Extends, HandlerIdentified, Serialize;
    if socket in s.clients {
      HandleIdentity(s.db, s.clients[socket], m, now);
      var db := Handle(s.db, s.clients[socket], m, now).db;
      forall k | k in s.clients ensures HandlerIdentified(db, s.clients[k]) {
        StaysIdentified(s.db, db, s.clients[k]);
      }
    } else {
      ExtendsSelf(s.db);
    }
  }

  lemma EvictIdentity(s: Server, gone: set<int>)
    requires Consistent(s)
    ensures Consistent(Evict(s, gone)) && Extends(s.db, Evict(s, gone).db)
  {
    hide Departing;
  }

  lemma AdmitIdentity(s: Server, socket: int, now: int)
    requires Consistent(s)
    ensures Consistent(Admit(s, socket, now)) && Extends(s.db, Admit(s, socket, now).db)
  {
    hide Departing;
  }

  lemma StepIdentity(s: Server, e: Event)
    requires Consistent(s)
    ensures Consistent(Step(s, e)) && Extends(s.db, Step(s, e).db)
  {
    hide Receive, Evict, Admit, TablesIdentify, Extends, HandlerIdentified;
    ExtendsSelf(s.db);
    match e
    case Accept(socket, _, now) => AdmitIdentity(s, socket, now);
    case Process(socket, m, now) => ReceiveIdentity(s, socket, m, now);
    case Disconnect(socket) => EvictIdentity(s, {socket});
    case Sweep(clock) => EvictIdentity(s, Late(s, clock));
    case Stop => EvictIdentity(s, s.clients.Keys);
  }

  lemma {:induction false} RunIdentity(s: Server, events: seq<Event>)
    requires Consistent(s)
    ensures Consistent(Run(s, events)) && Extends(s.db, Run(s, events).db)
    decreases |events|
  {
    hide Step, Consistent, Extends;
    if events == [] {
      ExtendsSelf(s.db);
    } else {
      var before := events[..|events| - 1];
      RunIdentity(s, before);
      StepIdentity(Run(s, before), events[|events| - 1]);
      ExtendsTrans(s.db, Run(s, before).db, Run(s, events).db);
    }
  }

  lemma InitialConsistent(hash: string -> string, listenSocket: int)
    ensures Consistent(InitialServer(hash, listenSocket))
  {
  }

  /** In every reachable state: cached roles are stored roles, and sessions name existing users with theirs. */
  lemma IdentityInvariant(hash: string -> string, listenSocket: int, events: seq<Event>)
    ensures var s := Run(InitialServer(hash, listenSocket), events);
            (forall k :: k in s.clients && s.clients[k].authenticated ==>
               s.clients[k].username in s.db.users && s.clients[k].role == s.db.users[s.clients[k].username].role)
            && forall u :: u in s.db.sessions ==>
               s.db.sessions[u].username == u && u in s.db.users && s.db.sessions[u].role == s.db.users[u].role
  {
    InitialConsistent(hash, listenSocket);
    RunIdentity(InitialServer(hash, listenSocket), events);
  }

  // ---------------------------------------------------------------- registration is stable

  /** The reply that a connection gets for a message in state `s`. */
  function ReplyTo(s: Server, socket: int, m: Message, now: int): Message
    requires socket in s.clients
  {
    Handle(s.db, s.clients[socket], m, now).reply
  }

  lemma LoginTextRole(user: User)
    ensures Split(LoginText(user), '|') == [ToString(user.role), ToString(user.level), ToString(user.score)]
    ensures Stoi(ToString(user.role)) == Some(user.role) && Stoi(ToString(user.level)) == Some(user.level)
    ensures Stoi(ToString(user.score)) == Ranged(user.score)
  {
    NumberToken(user.role);
    NumberToken(user.level);
    NumberToken(user.score);
    ThreeTokens(ToString(user.role), ToString(user.level), ToString(user.score));
  }

  lemma NumberToken(n: int)
    ensures '|' !in ToString(n) && ToString(n) != "" && Stoi(ToString(n)) == Ranged(n)
  {
    DigitsFree(if n < 0 then -n else n, '|');
    StoiOfToString(n, "");
    assert ToString(n) + "" == ToString(n);
  }

  /**
    After a successful registration, in every later state of every run, the registered credentials log in on any
    connection, and the reply starts with the registered role.
   */
  lemma RegistrationIsStable(s: Server, socket: int, m: Message, now: int, r: Registration, events: seq<Event>,
                             laterSocket: int, login: Message, laterNow: int)
    requires Consistent(s) && socket in s.clients && ReplyTo(s, socket, m, now).kind == REGISTER_SUCCESS
    requires ParseRegister(m.payload) == Some(r)
    requires laterSocket in Run(Step(s, Process(socket, m, now)), events).clients
    requires login.kind == LOGIN_REQUEST && ParseLogin(login.payload) == Some(Credentials(r.username, r.password))
    ensures var reply := ReplyTo(Run(Step(s, Process(socket, m, now)), events), laterSocket, login, laterNow);
            reply.kind == LOGIN_SUCCESS && |Split(reply.payload, '|')| == 3
            && Stoi(Split(reply.payload, '|')[0]) == Some(r.role)
  {
    hide Handle, ParseRegister, ParseLogin, LoginText, Split, Stoi, ToString, Consistent, Serialize;
    var h := s.clients[socket];
    RegisterSucceeds(s.db, h, m, now);
    var s1 := Step(s, Process(socket, m, now));
    var s2 := Run(s1, events);
    StepIdentity(s, Process(socket, m, now));
    RunIdentity(s1, events);
    assert s1.db.users[r.username] == User(r.username, s.db.hash(r.password), r.role, BEGINNER, 0);
    LoginSucceeds(s2.db, s2.clients[laterSocket], login, laterNow, Credentials(r.username, r.password));
    LoginTextRole(s2.db.users[r.username]);
  }

  /** The same from the client's side, for the requests that its builders make of bar-free strings. */
  lemma BuiltRegistrationIsStable(s: Server, socket: int, username: string, password: string, role: u8, now: int,
                                  events: seq<Event>, laterSocket: int, laterNow: int)
    requires Consistent(s) && socket in s.clients && '|' !in username && '|' !in password
    requires var m := NewMessage(REGISTER_REQUEST, CreateRegister(username, password, role));
             ReplyTo(s, socket, m, now).kind == REGISTER_SUCCESS
             && laterSocket in Run(Step(s, Process(socket, m, now)), events).clients
    ensures var m := NewMessage(REGISTER_REQUEST, CreateRegister(username, password, role));
            var login := NewMessage(LOGIN_REQUEST, CreateLogin(username, password));
            var reply := ReplyTo(Run(Step(s, Process(socket, m, now)), events), laterSocket, login, laterNow);
            reply.kind == LOGIN_SUCCESS && |Split(reply.payload, '|')| == 3
            && Stoi(Split(reply.payload, '|')[0]) == Some(role)
  {
    hide Handle, ParseRegister, ParseLogin, CreateRegister, CreateLogin, Split, Stoi, Consistent, Step, Run, Trim;
    var m := NewMessage(REGISTER_REQUEST, CreateRegister(username, password, role));
    var login := NewMessage(LOGIN_REQUEST, CreateLogin(username, password));
    RegisterSucceeds(s.db, s.clients[socket], m, now);
    RegisteredCanLogin(username, password, role);
    var r := Registration(Trim(username), Trim(password), role);
    RegistrationIsStable(s, socket, m, now, r, events, laterSocket, login, laterNow);
  }

  // ---------------------------------------------------------------- scores

  /** What one event earns for user `u`: the points of the reply, if the connection is logged in as `u`. */
  function Points(s: Server, e: Event, u: string): int {
    if e.Process? && e.socket in s.clients && s.clients[e.socket].username == u
    then PointsOf(ReplyTo(s, e.socket, e.message, e.now)) else 0
  }

  function Earned(s: Server, events: seq<Event>, u: string): int
    decreases |events|
  {
    if events == [] then 0
    else
      var before := events[..|events| - 1];
      Earned(s, before, u) + Points(Run(s, before), events[|events| - 1], u)
  }

  function Submissions(events: seq<Event>): nat
    decreases |events|
  {
    if events == [] then 0
    else
      var e := events[|events| - 1];
      Submissions(events[..|events| - 1])
      + if e.Process? && (e.message.kind == SUBMIT_QUIZ_REQUEST || e.message.kind == SUBMIT_EXERCISE_REQUEST)
        then 1 else 0
  }

  lemma StepScore(s: Server, e: Event, u: string)
    requires Consistent(s)
    ensures ScoreIn(Step(s, e).db, u) == ScoreIn(s.db, u) + Points(s, e, u)
    ensures 0 <= Points(s, e, u) <= 10
    ensures Points(s, e, u) > 0 ==>
              e.Process? && (e.message.kind == SUBMIT_QUIZ_REQUEST || e.message.kind == SUBMIT_EXERCISE_REQUEST)
  {
    hide Handle, Departing, Late, Serialize;
    if e.Process? && e.socket in s.clients {
      HandleScore(s.db, s.clients[e.socket], e.message, e.now, u);
    }
  }

  /** In every run, a user's score grows by exactly the points announced to that user's connections. */
  lemma {:induction false} ScoreConservation(s: Server, events: seq<Event>, u: string)
    requires Consistent(s)
    ensures ScoreIn(Run(s, events).db, u) == ScoreIn(s.db, u) + Earned(s, events, u)
    ensures 0 <= Earned(s, events, u) <= 10 * Submissions(events)
    decreases |events|
  {
    hide Step, Points, Consistent, ScoreIn;
    if events != [] {
      var before := events[..|events| - 1];
      ScoreConservation(s, before, u);
      RunIdentity(s, before);
      StepScore(Run(s, before), events[|events| - 1], u);
    }
  }

  /** How many replies of one type the connections of user `u` got in the run. */
  function Replies(s: Server, events: seq<Event>, u: string, kind: u16): nat
    decreases |events|
  {
    if events == [] then 0
    else
      var t, e := Run(s, events[..|events| - 1]), events[|events| - 1];
      Replies(s, events[..|events| - 1], u, kind)
      + if e.Process? && e.socket in t.clients && t.clients[e.socket].username == u
           && ReplyTo(t, e.socket, e.message, e.now).kind == kind then 1 else 0
  }

  /** Ten points for every accepted quiz and five for every accepted exercise, whatever the connection. */
  lemma {:induction false} EarnedByCounting(s: Server, events: seq<Event>, u: string)
    ensures Earned(s, events, u)
         == 10 * Replies(s, events, u, SUBMIT_QUIZ_RESPONSE) + 5 * Replies(s, events, u, SUBMIT_EXERCISE_RESPONSE)
    decreases |events|
  {
    hide ReplyTo, Run;
    if events != [] {
      EarnedByCounting(s, events[..|events| - 1], u);
    }
  }

  lemma InitialScores(hash: string -> string, listenSocket: int, u: string)
    ensures ScoreIn(InitialServer(hash, listenSocket).db, u) == 0
  {
  }

  /** The stored `int` cannot overflow while there are at most 214748364 submissions. */
  lemma ScoreFitsInt(hash: string -> string, listenSocket: int, events: seq<Event>, u: string)
    requires Submissions(events) <= 214748364
    ensures var score := ScoreIn(Run(InitialServer(hash, listenSocket), events).db, u);
            score == Earned(InitialServer(hash, listenSocket), events, u) && 0 <= score <= INT_MAX
  {
    InitialConsistent(hash, listenSocket);
    InitialScores(hash, listenSocket, u);
    ScoreConservation(InitialServer(hash, listenSocket), events, u);
  }

  // ---------------------------------------------------------------- provenance of content

  /** Event `e` in state `s` appends `entry` to the items of game `t`, sent by a stored administrator. */
  ghost predicate AddsItem(s: Server, e: Event, t: string, entry: string) {
    e.Process? && e.socket in s.clients && e.message.kind == ADD_GAME_ITEM_REQUEST
    && var h := s.clients[e.socket];
    h.authenticated && h.username in s.db.users && s.db.users[h.username].role == ADMIN
    && var parts := Split(e.message.payload, '|');
    |parts| >= 2 && parts[0] == t && parts[1] == entry
  }

  /** Event `e` in state `s` appends `entry` to the feedback of `t`, sent by a stored teacher or administrator. */
  ghost predicate AddsFeedback(s: Server, e: Event, t: string, entry: string) {
    e.Process? && e.socket in s.clients && e.message.kind == SEND_FEEDBACK_REQUEST
    && var h := s.clients[e.socket];
    h.authenticated && h.username in s.db.users && s.db.users[h.username].role in {TEACHER, ADMIN}
    && var parts := Split(e.message.payload, '|');
    |parts| >= 3 && parts[0] == t && entry == FeedbackEntry(parts[1], parts[2], h.username)
  }

  /** One list after one event: the same, or one entry longer by an event that may add it. */
  ghost predicate GrowsBy(before: seq<string>, after: seq<string>, adds: string -> bool) {
    after == before || (|after| == |before| + 1 && after[..|before|] == before && adds(after[|before|]))
  }

  lemma StepContent(s: Server, e: Event, t: string)
    requires Consistent(s)
    ensures GrowsBy(Entries(s.db.gameItems, t), Entries(Step(s, e).db.gameItems, t), x => AddsItem(s, e, t, x))
    ensures GrowsBy(Entries(s.db.feedbacks, t), Entries(Step(s, e).db.feedbacks, t), x => AddsFeedback(s, e, t, x))
  {
    hide Handle, Departing, Late, Serialize, Split, FeedbackEntry;
    if e.Process? && e.socket in s.clients {
      HandleContent(s.db, s.clients[e.socket], e.message, e.now);
    }
  }

  /**
    Every entry of a list of game items that was not there at the start was appended by one event of the run,
    at the position where it still stands; what was there stays in place.
   */
  lemma {:induction false} GameItemProvenance(s: Server, events: seq<Event>, t: string, i: nat)
    requires Consistent(s) && i < |Entries(Run(s, events).db.gameItems, t)|
    ensures var list := Entries(Run(s, events).db.gameItems, t);
            if i < |Entries(s.db.gameItems, t)| then list[i] == Entries(s.db.gameItems, t)[i]
            else exists j :: 0 <= j < |events| && AddsItem(Run(s, events[..j]), events[j], t, list[i])
                             && |Entries(Run(s, events[..j]).db.gameItems, t)| == i
    decreases |events|
  {
    hide Step, AddsItem, AddsFeedback, Consistent, Entries;
    if events != [] {
      var n := |events| - 1;
      var before := events[..n];
      RunIdentity(s, before);
      StepContent(Run(s, before), events[n], t);
      if i < |Entries(Run(s, before).db.gameItems, t)| {
        GameItemProvenance(s, before, t, i);
        PrefixesAgree(events, n);
      } else {
        ListOnlyGrows(s, before, t);
        assert events[..n] == before;
      }
    }
  }

  lemma PrefixesAgree(events: seq<Event>, n: nat)
    requires n <= |events|
    ensures forall j :: 0 <= j < n ==> events[..n][..j] == events[..j] && events[..n][j] == events[j]
  {
  }

  /** Both tables are append-only over every run. */
  lemma {:induction false} ListOnlyGrows(s: Server, events: seq<Event>, t: string)
    requires Consistent(s)
    ensures Entries(s.db.gameItems, t) <= Entries(Run(s, events).db.gameItems, t)
    ensures Entries(s.db.feedbacks, t) <= Entries(Run(s, events).db.feedbacks, t)
    decreases |events|
  {
    hide Step, AddsItem, AddsFeedback, Consistent, Entries;
    if events != [] {
      var before := events[..|events| - 1];
      ListOnlyGrows(s, before, t);
      RunIdentity(s, before);
      StepContent(Run(s, before), events[|events| - 1], t);
    }
  }

  lemma {:induction false} FeedbackProvenance(s: Server, events: seq<Event>, t: string, i: nat)
    requires Consistent(s) && i < |Entries(Run(s, events).db.feedbacks, t)|
    ensures var list := Entries(Run(s, events).db.feedbacks, t);
            if i < |Entries(s.db.feedbacks, t)| then list[i] == Entries(s.db.feedbacks, t)[i]
            else exists j :: 0 <= j < |events| && AddsFeedback(Run(s, events[..j]), events[j], t, list[i])
                             && |Entries(Run(s, events[..j]).db.feedbacks, t)| == i
    decreases |events|
  {
    hide Step, AddsItem, AddsFeedback, Consistent, Entries;
    if events != [] {
      var n := |events| - 1;
      var before := events[..n];
      RunIdentity(s, before);
      StepContent(Run(s, before), events[n], t);
      if i < |Entries(Run(s, before).db.feedbacks, t)| {
        FeedbackProvenance(s, before, t, i);
        PrefixesAgree(events, n);
      } else {
        ListOnlyGrows(s, before, t);
        assert events[..n] == before;
      }
    }
  }

  // ---------------------------------------------------------------- levels

  function LevelIn(db: Db, u: string): u8 {
    if u in db.users then db.users[u].level else 1
  }

  /** The level that an event sets for user `u`: that of an accepted request of one of the user's connections. */
  function LevelSet(s: Server, e: Event, u: string): Option<u8> {
    if e.Process? && e.socket in s.clients && s.clients[e.socket].authenticated && s.clients[e.socket].username == u
       && e.message.kind == SET_LEVEL_REQUEST && ParseLevel(e.message.payload).Some?
    then Some(ParseLevel(e.message.payload).value) else None
  }

  /** The last level that was set for user `u` in the run, or the one before it. */
  function LastLevel(s: Server, events: seq<Event>, u: string): u8
    decreases |events|
  {
    if events == [] then LevelIn(s.db, u)
    else
      var before := events[..|events| - 1];
      var level := LevelSet(Run(s, before), events[|events| - 1], u);
      if level.Some? then level.value else LastLevel(s, before, u)
  }

  lemma EntryLevelsStay(db: Db, h: Handler, payload: string, u: string)
    ensures LevelIn(Register(db, h, payload).db, u) == LevelIn(db, u)
    ensures LevelIn(Login(db, h, payload).db, u) == LevelIn(db, u)
    ensures LevelIn(Logout(db, h).db, u) == LevelIn(db, u)
  {
    hide ParseRegister, ParseLogin, Error, NewMessage, LoginText;
  }

  lemma WriteLevelsStay(db: Db, h: Handler, m: Message, u: string)
    requires m.kind != SET_LEVEL_REQUEST && Writing(m.kind)
    ensures LevelIn(Write(db, h, m).db, u) == LevelIn(db, u)
  {
    hide Split, ErrorText, SuccessText, ToString, FeedbackEntry, Appended, NewMessage;
  }

  lemma AcceptedLevel(db: Db, h: Handler, m: Message, now: int, u: string)
    requires h.authenticated && h.username in db.users && m.kind == SET_LEVEL_REQUEST
    ensures LevelIn(Handle(db, h, m, now).db, u)
         == if h.username == u && ParseLevel(m.payload).Some? then ParseLevel(m.payload).value else LevelIn(db, u)
  {
    hide Handle, ParseLevel;
    SetLevelExactly(db, h, m, now);
  }

  lemma OtherLevels(db: Db, h: Handler, m: Message, now: int, u: string)
    requires !h.authenticated || m.kind != SET_LEVEL_REQUEST
    ensures LevelIn(Handle(db, h, m, now).db, u) == LevelIn(db, u)
  {
    hide Register, Login, Logout, Write, Answer, NewMessage, Error, LevelIn;
    var g := h.(lastActivity := now);
    EntryLevelsStay(db, g, m.payload, u);
    if h.authenticated && Writing(m.kind) {
      WriteLevelsStay(db, g, m, u);
    }
  }

  lemma HandleLevel(db: Db, h: Handler, m: Message, now: int, u: string)
    requires HandlerIdentified(db, h)
    ensures LevelIn(Handle(db, h, m, now).db, u)
         == if h.authenticated && h.username == u && m.kind == SET_LEVEL_REQUEST && ParseLevel(m.payload).Some?
            then ParseLevel(m.payload).value else LevelIn(db, u)
  {
    hide Handle, ParseLevel, LevelIn;
    if h.authenticated && m.kind == SET_LEVEL_REQUEST {
      AcceptedLevel(db, h, m, now, u);
    } else {
      OtherLevels(db, h, m, now, u);
    }
  }

  lemma StepLevel(s: Server, e: Event, u: string)
    requires Consistent(s)
    ensures LevelIn(Step(s, e).db, u) == if LevelSet(s, e, u).Some? then LevelSet(s, e, u).value else LevelIn(s.db, u)
  {
    hide Handle, Departing, Late, Serialize, ParseLevel;
    if e.Process? && e.socket in s.clients {
      HandleLevel(s.db, s.clients[e.socket], e.message, e.now, u);
    }
  }

  /** In every run the stored level of a user is the last one that the user's connections have set. */
  lemma {:induction false} StoredLevelIsLastSet(s: Server, events: seq<Event>, u: string)
    requires Consistent(s)
    ensures LevelIn(Run(s, events).db, u) == LastLevel(s, events, u)
    decreases |events|
  {
    hide Step, LevelSet, LevelIn, Consistent;
    if events != [] {
      var before := events[..|events| - 1];
      StoredLevelIsLastSet(s, before, u);
      RunIdentity(s, before);
      StepLevel(Run(s, before), events[|events| - 1], u);
    }
  }

  // ---------------------------------------------------------------- what feedback says

  /** Every stored user has a valid name; so have the handlers, which speak for stored users. */
  ghost predicate NamesValid(db: Db) {
    forall u :: u in db.users ==> ValidUsername(u)
  }

  lemma StepNames(s: Server, e: Event)
    requires NamesValid(s.db)
    ensures NamesValid(Step(s, e).db)
  {
    hide Handle, Departing, Late, Serialize, ValidUsername;
    if e.Process? && e.socket in s.clients {
      HandleNames(s.db, s.clients[e.socket], e.message, e.now);
    }
  }

  lemma NewName(db: Db, h: Handler, m: Message, now: int)
    requires NamesValid(db) && m.kind == REGISTER_REQUEST
    ensures NamesValid(Handle(db, h, m, now).db)
  {
    hide Handle, ParseRegister, ValidUsername;
    RegisteredNameValid(m.payload);
    RegisterExactly(db, h, m, now);
  }

  lemma OtherNames(db: Db, h: Handler, m: Message, now: int)
    requires m.kind != REGISTER_REQUEST
    ensures Handle(db, h, m, now).db.users.Keys == db.users.Keys
  {
    hide Login, Logout, Write, Answer, NewMessage, Error;
    var g := h.(lastActivity := now);
    NobodyNew(db, g, m);
    WriteNobodyNew(db, g, m);
  }

  lemma HandleNames(db: Db, h: Handler, m: Message, now: int)
    requires NamesValid(db)
    ensures NamesValid(Handle(db, h, m, now).db)
  {
    hide Handle, ValidUsername;
    if m.kind == REGISTER_REQUEST {
      NewName(db, h, m, now);
    } else {
      OtherNames(db, h, m, now);
      assert forall u :: u in Handle(db, h, m, now).db.users ==> u in db.users.Keys;
    }
  }

  lemma RegisteredNameValid(payload: string)
    ensures ParseRegister(payload).Some? ==> ValidUsername(ParseRegister(payload).value.username)
  {
    hide Stoi, Split, Trim, ValidUsername;
  }

  lemma NobodyNew(db: Db, h: Handler, m: Message)
    ensures Login(db, h, m.payload).db.users == db.users && Logout(db, h).db.users == db.users
    ensures SendFeedback(db, h, m.payload).db.users == db.users && AddGameItem(db, h, m.payload).db.users == db.users
  {
    hide ParseLogin, Split, ErrorText, SuccessText, FeedbackEntry, Appended, NewMessage, Error, LoginText;
  }

  lemma SubmissionsNobodyNew(db: Db, h: Handler, payload: string)
    ensures SetLevel(db, h, payload).db.users.Keys == db.users.Keys
    ensures SubmitQuiz(db, h, payload).db.users.Keys == db.users.Keys
    ensures SubmitExercise(db, h, payload).db.users.Keys == db.users.Keys
  {
    hide ParseLevel, Split, ErrorText, SuccessText, ToString, NewMessage, Error;
  }

  lemma WriteNobodyNew(db: Db, h: Handler, m: Message)
    ensures Write(db, h, m).db.users.Keys == db.users.Keys
  {
    hide SetLevel, SubmitQuiz, SubmitExercise, SendFeedback, AddGameItem, Login, Logout;
    NobodyNew(db, h, m);
    SubmissionsNobodyNew(db, h, m.payload);
  }

  lemma {:induction false} RunNames(s: Server, events: seq<Event>)
    requires NamesValid(s.db)
    ensures NamesValid(Run(s, events).db)
    decreases |events|
  {
    hide Step, NamesValid;
    if events != [] {
      RunNames(s, events[..|events| - 1]);
      StepNames(Run(s, events[..|events| - 1]), events[|events| - 1]);
    }
  }

  lemma InitialNames(hash: string -> string, listenSocket: int)
    ensures NamesValid(InitialServer(hash, listenSocket).db)
  {
    hide ValidUsername, SAMPLE_LESSONS;
    DefaultNames();
  }

  lemma DefaultNames()
    ensures ValidUsername("admin") && ValidUsername("teacher1")
  {
  }

  lemma NoBarInName(u: string)
    requires ValidUsername(u)
    ensures '|' !in u
  {
  }

  /** An entry of bar-free parts is cut at its bars into exercise, sender and text. */
  lemma EntryReads(entry: string, exercise: string, from: string, text: string)
    requires '|' !in exercise && '|' !in from && '|' !in text
    requires entry == "Exercise: " + exercise + " | From: " + from + " | " + text
    ensures Split(entry, '|') == ["Exercise: " + exercise + " ", " From: " + from + " ", " " + text]
  {
    hide Split;
    var a, b, c := "Exercise: " + exercise + " ", " From: " + from + " ", " " + text;
    assert entry == a + ['|'] + (b + ['|'] + c);
    SplitStep(a, '|', b + ['|'] + c);
    SplitStep(b, '|', c);
    SplitLast(c, '|');
  }

  /** Event `e` is a feedback request to `t`: what its entry says of the exercise, the sender and the text. */
  ghost predicate SaysWhoAndWhat(s: Server, e: Event, t: string, entry: string) {
    e.Process? && e.socket in s.clients && e.message.kind == SEND_FEEDBACK_REQUEST && s.clients[e.socket].authenticated
    && var parts := Split(e.message.payload, '|');
    |parts| >= 3 && parts[0] == t
    && Split(entry, '|')
       == ["Exercise: " + parts[1] + " ", " From: " + s.clients[e.socket].username + " ", " " + parts[2]]
  }

  lemma EntrySays(s: Server, e: Event, t: string, entry: string)
    requires AddsFeedback(s, e, t, entry) && NamesValid(s.db)
    ensures SaysWhoAndWhat(s, e, t, entry)
  {
    hide Split, ValidUsername;
    var parts := Split(e.message.payload, '|');
    var from := s.clients[e.socket].username;
    SplitClean(e.message.payload, '|');
    NoBarInName(from);
    assert entry == "Exercise: " + parts[1] + " | From: " + from + " | " + parts[2];
    EntryReads(entry, parts[1], from, parts[2]);
  }

  /**
    In every reachable state, every feedback entry of every user was sent by a connection in the run, and cut at its
    bars it names the exercise sent, the user logged in on that connection, and the text sent.
   */
  lemma FeedbackSaysWhoAndWhat(hash: string -> string, listenSocket: int, events: seq<Event>, t: string, i: nat)
    requires i < |Entries(Run(InitialServer(hash, listenSocket), events).db.feedbacks, t)|
    ensures var s := InitialServer(hash, listenSocket);
            exists j :: 0 <= j < |events|
                        && SaysWhoAndWhat(Run(s, events[..j]), events[j], t, Entries(Run(s, events).db.feedbacks, t)[i])
  {
    hide Run, AddsFeedback, SaysWhoAndWhat, NamesValid;
    var s := InitialServer(hash, listenSocket);
    var entry := Entries(Run(s, events).db.feedbacks, t)[i];
    InitialConsistent(hash, listenSocket);
    InitialNames(hash, listenSocket);
    FeedbackProvenance(s, events, t, i);
    var j :| 0 <= j < |events| && AddsFeedback(Run(s, events[..j]), events[j], t, entry);
    RunNames(s, events[..j]);
    EntrySays(Run(s, events[..j]), events[j], t, entry);
  }
}
