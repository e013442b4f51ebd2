/**
  When do `sessions_`, `socketToUser_` and the logged-in handlers agree?  A second login overwrites one map entry
  without cleaning the other map, so they do not always: this file says exactly which logins break the agreement.
 */
module SessionAgreement {
  import opened CommonUtils
  import opened Decimal
  import opened MessageStructs
  import opened PayloadParser
  import opened Storage
  import opened Handling
  import opened ServerCore
  import opened ServerRuns
  import opened Descriptors

  /** Every logged-in handler owns the session of its user, and its cached level is the stored one. */
  ghost predicate HandlerOwnsSession(db: Db, k: int, h: Handler) {
    h.authenticated ==>
      h.username in db.sessions && db.sessions[h.username].socket == k
      && k in db.socketToUser && db.socketToUser[k] == h.username
      && h.username in db.users && h.level == db.users[h.username].level
  }

  ghost predicate LoggedInAs(clients: map<int, Handler>, k: int, u: string) {
    k in clients && clients[k].authenticated && clients[k].username == u
  }

  /** `sessions_` is exactly the logged-in handlers, `socketToUser_` is its inverse, and levels are up to date. */
  ghost predicate Agree(s: Server) {
    (forall k :: k in s.clients ==> HandlerOwnsSession(s.db, k, s.clients[k]))
    && (forall u :: u in s.db.sessions ==> LoggedInAs(s.clients, s.db.sessions[u].socket, u))
    && (forall k :: k in s.db.socketToUser ==> LoggedInAs(s.clients, k, s.db.socketToUser[k]))
  }

  /** The user that this event logs in, and on which connection. */
  predicate LogsIn(s: Server, e: Event) {
    e.Process? && e.socket in s.clients && e.message.kind == LOGIN_REQUEST && LoginUser(s.db, e.message.payload).Some?
  }

  /**
    The guard: a login comes from a connection that is not logged in and names a user without a live session,
    or repeats the login of the same connection.
   */
  predicate Disciplined(s: Server, e: Event) {
    LogsIn(s, e) ==>
      var h, u := s.clients[e.socket], LoginUser(s.db, e.message.payload).value;
      if h.authenticated then h.username == u else u !in s.db.sessions
  }

  // ---------------------------------------------------------------- what a message does to sessions

  /** Nothing but the level of this connection's user changes. */
  ghost predicate SameSessions(db: Db, h: Handler, o: Outcome) {
    o.db.sessions == db.sessions && o.db.socketToUser == db.socketToUser
    && o.handler.authenticated == h.authenticated && o.handler.username == h.username
    && (forall u :: u in db.users && (u != h.username || !h.authenticated) ==>
          u in o.db.users && o.db.users[u].level == db.users[u].level)
    && (h.authenticated && h.username in db.users && h.level == db.users[h.username].level ==>
          h.username in o.db.users && o.handler.level == o.db.users[h.username].level)
  }

  lemma RegisterSessions(db: Db, h: Handler, payload: string)
    ensures SameSessions(db, h, Register(db, h, payload))
  {
    hide ParseRegister, NewMessage, Error;
  }

  lemma SubmissionSessions(db: Db, h: Handler, payload: string)
    ensures SameSessions(db, h, SubmitQuiz(db, h, payload)) && SameSessions(db, h, SubmitExercise(db, h, payload))
  {
    hide Split, NewMessage, Error, ToString;
  }

  lemma SetLevelSessions(db: Db, h: Handler, payload: string)
    requires h.authenticated
    ensures SameSessions(db, h, SetLevel(db, h, payload))
  {
    hide ParseLevel, NewMessage, Error;
  }

  lemma ContentSessions(db: Db, h: Handler, payload: string)
    ensures SameSessions(db, h, SendFeedback(db, h, payload)) && SameSessions(db, h, AddGameItem(db, h, payload))
  {
    hide Split, NewMessage, Error, ErrorText, SuccessText, Appended, FeedbackEntry, SameSessions;
    var f, g := SendFeedback(db, h, payload), AddGameItem(db, h, payload);
    NothingHappened(db, h, f);
    NothingHappened(db, h, g);
  }

  lemma NothingHappened(db: Db, h: Handler, o: Outcome)
    requires o.db.sessions == db.sessions && o.db.socketToUser == db.socketToUser && o.db.users == db.users
    requires o.handler == h
    ensures SameSessions(db, h, o)
  {
  }

  lemma OtherSessions(db: Db, h: Handler, m: Message)
    requires m.kind != LOGIN_REQUEST && m.kind != LOGOUT_REQUEST
    ensures SameSessions(db, h, Dispatch(db, h, m))
  {
    hide Register, SetLevel, SubmitQuiz, SubmitExercise, SendFeedback, AddGameItem, Answer, NewMessage, Error;
    RegisterSessions(db, h, m.payload);
    SubmissionSessions(db, h, m.payload);
    ContentSessions(db, h, m.payload);
    if h.authenticated {
      SetLevelSessions(db, h, m.payload);
    }
  }

  // ---------------------------------------------------------------- one event

  /** The tables and clients after a message at `socket` was handled with outcome `o`. */
  function Handled(s: Server, socket: int, o: Outcome): Server {
    s.(db := o.db, clients := s.clients[socket := o.handler])
  }

  lemma AgreeIgnoresSent(s: Server, sent: seq<Packet>)
    ensures Agree(s.(sent := sent)) == Agree(s)
  {
  }

  lemma SameSessionsAgree(s: Server, socket: int, h: Handler, o: Outcome)
    requires Agree(s) && Consistent(s) && socket in s.clients
    requires h == s.clients[socket].(lastActivity := h.lastActivity) && SameSessions(s.db, h, o)
    ensures Agree(Handled(s, socket, o))
  {
    hide Consistent;
    forall k | k in s.clients && k != socket ensures HandlerOwnsSession(o.db, k, s.clients[k]) {
      assert HandlerOwnsSession(s.db, k, s.clients[k]) && HandlerOwnsSession(s.db, socket, s.clients[socket]);
    }
    assert HandlerOwnsSession(s.db, socket, s.clients[socket]);
    assert forall k, u :: LoggedInAs(s.clients, k, u) ==> LoggedInAs(s.clients[socket := o.handler], k, u);
  }

  lemma LogoutAgree(s: Server, socket: int, h: Handler)
    requires Agree(s) && socket in s.clients && h == s.clients[socket].(lastActivity := h.lastActivity)
    ensures Agree(Handled(s, socket, Logout(s.db, h)))
  {
    hide NewMessage, Error;
    assert HandlerOwnsSession(s.db, socket, s.clients[socket]);
    forall k | k in s.clients && k != socket ensures HandlerOwnsSession(Logout(s.db, h).db, k, s.clients[k]) {
      assert HandlerOwnsSession(s.db, k, s.clients[k]);
    }
    var c := s.clients[socket := Logout(s.db, h).handler];
    assert forall k, u :: LoggedInAs(s.clients, k, u) && k != socket ==> LoggedInAs(c, k, u);
    if !h.authenticated {
      assert forall u :: !LoggedInAs(s.clients, socket, u);
    }
  }

  /** The heart: a successful login keeps the agreement exactly if it is disciplined. */
  lemma LoginAgree(s: Server, socket: int, h: Handler, payload: string, u: string)
    requires Agree(s) && Consistent(s) && socket in s.clients && h == s.clients[socket].(lastActivity := h.lastActivity)
    requires LoginUser(s.db, payload) == Some(u)
    ensures Agree(Handled(s, socket, Login(s.db, h, payload)))
       <==> if h.authenticated then h.username == u else u !in s.db.sessions
  {
    hide ParseLogin, NewMessage, Error, LoginText, Authenticates;
    var o := Login(s.db, h, payload);
    var after := Handled(s, socket, o);
    LoginOutcome(s.db, h, payload, u);
    assert h.socket == socket;
    assert HandlerOwnsSession(s.db, socket, s.clients[socket]);
    if h.authenticated && h.username != u {
      assert h.username in after.db.sessions && !LoggedInAs(after.clients, socket, h.username);
    } else if !h.authenticated && u in s.db.sessions {
      var k := s.db.sessions[u].socket;
      assert LoggedInAs(s.clients, k, u);
      assert !HandlerOwnsSession(after.db, k, after.clients[k]);
    } else {
      DisciplinedLoginAgrees(s, socket, h, o, u);
    }
  }

  lemma LoginOutcome(db: Db, h: Handler, payload: string, u: string)
    requires LoginUser(db, payload) == Some(u)
    ensures var o := Login(db, h, payload);
            u in db.users && o.db == WithSession(db, u, h.socket) && o.handler.authenticated && o.handler.username == u
            && o.handler.level == db.users[u].level
  {
    hide ParseLogin, NewMessage, Error, LoginText;
  }

  lemma DisciplinedLoginAgrees(s: Server, socket: int, h: Handler, o: Outcome, u: string)
    requires Agree(s) && socket in s.clients && h == s.clients[socket].(lastActivity := h.lastActivity)
    requires h.socket == socket && u in s.db.users && o.db == WithSession(s.db, u, socket)
    requires o.handler.authenticated && o.handler.username == u && o.handler.level == s.db.users[u].level
    requires if h.authenticated then h.username == u else u !in s.db.sessions
    ensures Agree(Handled(s, socket, o))
  {
    assert HandlerOwnsSession(s.db, socket, s.clients[socket]);
    forall k | k in s.clients && k != socket ensures HandlerOwnsSession(o.db, k, s.clients[k]) {
      assert HandlerOwnsSession(s.db, k, s.clients[k]);
    }
    var c := s.clients[socket := o.handler];
    assert forall k, v :: LoggedInAs(s.clients, k, v) && k != socket ==> LoggedInAs(c, k, v);
    assert LoggedInAs(c, socket, u);
    assert forall v :: LoggedInAs(s.clients, socket, v) ==> v == u;
  }

  lemma ProcessAgree(s: Server, socket: int, m: Message, now: int)
    requires Agree(s) && Consistent(s)
    ensures Agree(Receive(s, socket, m, now)) <==> Disciplined(s, Process(socket, m, now))
  {
    hide Agree, Consistent, Login, Logout, SameSessions, Serialize, LoginUser;
    if socket in s.clients {
      var h := s.clients[socket].(lastActivity := now);
      var o := Handle(s.db, s.clients[socket], m, now);
      AgreeIgnoresSent(Handled(s, socket, o), s.sent + [Packet(socket, Serialize(o.reply))]);
      if m.kind == LOGIN_REQUEST {
        LoginKeeps(s, socket, h, m.payload);
      } else if m.kind == LOGOUT_REQUEST {
        LogoutAgree(s, socket, h);
      } else {
        hide Handle, Dispatch;
        HandleIsDispatch(s.db, s.clients[socket], m, now);
        OtherSessions(s.db, h, m);
        SameSessionsAgree(s, socket, h, o);
      }
    }
  }

  lemma HandleIsDispatch(db: Db, h: Handler, m: Message, now: int)
    ensures Handle(db, h, m, now) == Dispatch(db, h.(lastActivity := now), m)
  {
    hide Dispatch;
  }

  lemma LoginKeeps(s: Server, socket: int, h: Handler, payload: string)
    requires Agree(s) && Consistent(s) && socket in s.clients && h == s.clients[socket].(lastActivity := h.lastActivity)
    ensures Agree(Handled(s, socket, Login(s.db, h, payload)))
       <==> (LoginUser(s.db, payload).Some? ==>
               if h.authenticated then h.username == LoginUser(s.db, payload).value
               else LoginUser(s.db, payload).value !in s.db.sessions)
  {
    hide Agree, Consistent, LoginUser, NewMessage, Error, LoginText, ParseLogin;
    if LoginUser(s.db, payload).Some? {
      LoginAgree(s, socket, h, payload, LoginUser(s.db, payload).value);
    } else {
      var o := Login(s.db, h, payload);
      assert o.db == s.db && o.handler == h;
      Unchanged(s, socket, h, o);
    }
  }

  lemma Unchanged(s: Server, socket: int, h: Handler, o: Outcome)
    requires Agree(s) && Consistent(s) && socket in s.clients && h == s.clients[socket].(lastActivity := h.lastActivity)
    requires o.db == s.db && o.handler == h
    ensures Agree(Handled(s, socket, o))
  {
    SameSessionsAgree(s, socket, h, o);
  }

  lemma EvictAgree(s: Server, gone: set<int>)
    requires Agree(s)
    ensures Agree(Evict(s, gone))
  {
    var after := Evict(s, gone);
    forall k | k in after.clients ensures HandlerOwnsSession(after.db, k, after.clients[k]) {
      assert HandlerOwnsSession(s.db, k, s.clients[k]);
      forall j | j in gone && j in s.clients ensures HandlerOwnsSession(s.db, j, s.clients[j]) {
      }
    }
    forall u | u in after.db.sessions ensures LoggedInAs(after.clients, after.db.sessions[u].socket, u) {
      assert LoggedInAs(s.clients, s.db.sessions[u].socket, u);
    }
    forall k | k in after.db.socketToUser ensures LoggedInAs(after.clients, k, after.db.socketToUser[k]) {
      assert LoggedInAs(s.clients, k, s.db.socketToUser[k]);
      assert HandlerOwnsSession(s.db, k, s.clients[k]);
    }
  }

  lemma AdmitAgree(s: Server, socket: int, now: int)
    requires Agree(s) && socket !in s.clients
    ensures Agree(Admit(s, socket, now))
  {
    var after := Admit(s, socket, now);
    assert forall k, u :: LoggedInAs(s.clients, k, u) ==> LoggedInAs(after.clients, k, u);
    forall k | k in s.clients ensures HandlerOwnsSession(after.db, k, s.clients[k]) {
    }
  }

  lemma StepAgree(s: Server, e: Event)
    requires Agree(s) && Consistent(s) && DescriptorsOk(s) && Possible(s, e)
    ensures Agree(Step(s, e)) <==> Disciplined(s, e)
  {
    hide Agree, Consistent, Receive, LoginUser, Evict, Admit;
    match e
    case Accept(socket, _, now) => AdmitAgree(s, socket, now);
    case Process(socket, m, now) => ProcessAgree(s, socket, m, now);
    case Disconnect(socket) => EvictAgree(s, {socket});
    case Sweep(clock) => EvictAgree(s, Late(s, clock));
    case Stop =>
      EvictAgree(s, s.clients.Keys);
      if s.running {
        AgreeIgnoresRest(Evict(s, s.clients.Keys), Step(s, e));
      }
  }

  lemma AgreeIgnoresRest(a: Server, b: Server)
    requires Agree(a) && b.db == a.db && b.clients == a.clients
    ensures Agree(b)
  {
  }

  lemma InitialAgree(hash: string -> string, listenSocket: int)
    ensures Agree(InitialServer(hash, listenSocket))
  {
  }

  ghost predicate AlwaysAgree(s: Server, events: seq<Event>) {
    forall i :: 0 <= i <= |events| ==> Agree(Run(s, events[..i]))
  }

  ghost predicate AlwaysDisciplined(s: Server, events: seq<Event>) {
    forall i :: 0 <= i < |events| ==> Disciplined(Run(s, events[..i]), events[i])
  }

  lemma AlwaysUpTo(s: Server, events: seq<Event>, n: nat)
    requires |events| == n + 1
    ensures AlwaysAgree(s, events) <==> AlwaysAgree(s, events[..n]) && Agree(Run(s, events))
    ensures AlwaysDisciplined(s, events)
       <==> AlwaysDisciplined(s, events[..n]) && Disciplined(Run(s, events[..n]), events[n])
  {
    hide Agree, Disciplined, Run;
    assert events[..n + 1] == events;
    assert forall i :: 0 <= i <= n ==> events[..n][..i] == events[..i];
    assert forall i :: 0 <= i < n ==> events[..n][i] == events[i];
  }

  /**
    Session agreement over every run, exactly: the tables agree with the logged-in handlers after every event
    if and only if every login of the run is disciplined.
   */
  lemma {:induction false} SessionAgreementExactly(s: Server, events: seq<Event>)
    requires Agree(s) && Consistent(s) && DescriptorsOk(s) && PossibleRun(s, events)
    ensures AlwaysAgree(s, events) <==> AlwaysDisciplined(s, events)
    decreases |events|
  {
    if events == [] {
      hide Agree, Disciplined;
      assert events[..0] == [];
    } else {
      hide Agree, Consistent, DescriptorsOk, Disciplined, Step, AlwaysAgree, AlwaysDisciplined, Possible;
      var n := |events| - 1;
      var before := events[..n];
      SessionAgreementExactly(s, before);
      RunIdentity(s, before);
      RunDescriptors(s, before);
      AlwaysUpTo(s, events, n);
      if AlwaysAgree(s, before) {
        LastAgrees(s, before);
        StepAgree(Run(s, before), events[n]);
      }
    }
  }

  lemma LastAgrees(s: Server, events: seq<Event>)
    requires AlwaysAgree(s, events)
    ensures Agree(Run(s, events))
  {
    hide Agree, Run;
    assert events[..|events|] == events;
  }

  /** What an undisciplined second login leaves behind: a session that outlives its connection. */
  lemma SecondLoginLeaksSession(s: Server, k: int, m: Message, now: int)
    requires Agree(s) && Consistent(s) && k in s.clients && s.clients[k].authenticated
    requires LogsIn(s, Process(k, m, now)) && LoginUser(s.db, m.payload).value != s.clients[k].username
    ensures var t := Run(s, [Process(k, m, now), Disconnect(k)]);
            var first := s.clients[k].username;
            k !in t.clients && first in t.db.sessions && t.db.sessions[first].socket == k
  {
    hide ParseLogin, NewMessage, Error, LoginText, Serialize, Authenticates;
    var events := [Process(k, m, now), Disconnect(k)];
    var h := s.clients[k].(lastActivity := now);
    var u := LoginUser(s.db, m.payload).value;
    assert HandlerOwnsSession(s.db, k, s.clients[k]);
    LoginOutcome(s.db, h, m.payload, u);
    RunNext(s, events, 0);
    RunNext(s, events, 1);
    assert events[..0] == [] && events[..2] == events;
    var s1 := Step(s, Process(k, m, now));
    assert s1.clients[k].username == u && s1.db == WithSession(s.db, u, k);
    assert Departing(s1.clients, {k}) == {u};
  }

  const ADMIN_LOGIN := NewMessage(LOGIN_REQUEST, CreateLogin("admin", "admin123"))
  const TEACHER_LOGIN := NewMessage(LOGIN_REQUEST, CreateLogin("teacher1", "teacher123"))

  lemma DefaultsParse()
    ensures ParseLogin(CreateLogin("admin", "admin123")) == Some(Credentials("admin", "admin123"))
    ensures ParseLogin(CreateLogin("teacher1", "teacher123")) == Some(Credentials("teacher1", "teacher123"))
  {
    hide ParseLogin, CreateLogin, Trim, ValidUsername;
    TrimmedLiterals();
    ValidLiterals();
    LoginBuilder("admin", "admin123");
    LoginBuilder("teacher1", "teacher123");
  }

  lemma ValidLiterals()
    ensures ValidUsername("admin") && ValidUsername("teacher1")
  {
  }

  lemma TrimmedLiterals()
    ensures Trim("admin") == "admin" && Trim("admin123") == "admin123"
    ensures Trim("teacher1") == "teacher1" && Trim("teacher123") == "teacher123"
  {
    hide Trim;
    TrimmedAlready("admin");
    TrimmedAlready("admin123");
    TrimmedAlready("teacher1");
    TrimmedAlready("teacher123");
  }

  lemma TrimmedAlready(s: string)
    requires s != "" && !IsBlank(s[0]) && !IsBlank(s[|s| - 1])
    ensures Trim(s) == s
  {
    TrimSurrounded("", s, "");
    assert "" + s + "" == s;
  }

  lemma DefaultsLogIn(s: Server)
    requires s.db.users == InitialDb(s.db.hash).users
    ensures LoginUser(s.db, ADMIN_LOGIN.payload) == Some("admin")
    ensures LoginUser(s.db, TEACHER_LOGIN.payload) == Some("teacher1")
  {
    hide ParseLogin, CreateLogin, SAMPLE_LESSONS;
    DefaultsParse();
  }

  /** The administrator has logged in on a fresh connection, and the tables still agree. */
  lemma AdminLoggedIn(hash: string -> string, listenSocket: int, k: int, now: int)
    requires listenSocket != INVALID_SOCKET && k != listenSocket && k != INVALID_SOCKET
    ensures var s := Run(InitialServer(hash, listenSocket), [Accept(k, true, now), Process(k, ADMIN_LOGIN, now)]);
            Agree(s) && Consistent(s) && s.db.users == InitialDb(s.db.hash).users
            && LoggedInAs(s.clients, k, "admin")
  {
    hide Agree, Consistent, LoginUser, InitialDb, DescriptorsOk, ADMIN_LOGIN, TEACHER_LOGIN, Serialize, Authenticates;
    var s0 := InitialServer(hash, listenSocket);
    var events := [Accept(k, true, now), Process(k, ADMIN_LOGIN, now)];
    var s1, s2 := Step(s0, events[0]), Step(Step(s0, events[0]), events[1]);
    TwoSteps(s0, events);
    InitialAgree(hash, listenSocket);
    InitialConsistent(hash, listenSocket);
    InitialDescriptors(hash, listenSocket);
    StepAgree(s0, events[0]);
    StepIdentity(s0, events[0]);
    StepDescriptors(s0, events[0]);
    Admitted(hash, listenSocket, k, now);
    DefaultsLogIn(s1);
    StepAgree(s1, events[1]);
    StepIdentity(s1, events[1]);
    LoginKinds();
    LoginStep(s1, k, ADMIN_LOGIN, now, "admin");
  }

  lemma TwoSteps(s: Server, events: seq<Event>)
    requires |events| == 2
    ensures Run(s, events) == Step(Step(s, events[0]), events[1])
  {
    hide Step;
    RunNext(s, events, 0);
    RunNext(s, events, 1);
    assert events[..0] == [] && events[..2] == events;
  }

  lemma Admitted(hash: string -> string, listenSocket: int, k: int, now: int)
    ensures var s := Step(InitialServer(hash, listenSocket), Accept(k, true, now));
            s.db == InitialDb(hash) && s.db.hash == hash && s.db.sessions == map[]
            && k in s.clients && !s.clients[k].authenticated
  {
    hide SAMPLE_LESSONS;
  }

  lemma LoginStep(s: Server, k: int, m: Message, now: int, u: string)
    requires k in s.clients && m.kind == LOGIN_REQUEST && LoginUser(s.db, m.payload) == Some(u)
    ensures var t := Step(s, Process(k, m, now));
            LoggedInAs(t.clients, k, u) && t.db.users == s.db.users && t.db.hash == s.db.hash
  {
    hide LoginUser, Serialize, NewMessage, Error, LoginText;
    LoginOutcome(s.db, s.clients[k].(lastActivity := now), m.payload, u);
  }

  /** From the start: administrator, then teacher on one connection, which then closes. The first session stays. */
  lemma LeakFromTheStart(hash: string -> string, listenSocket: int, k: int, now: int)
    requires listenSocket != INVALID_SOCKET && k != listenSocket && k != INVALID_SOCKET
    ensures var t := Run(InitialServer(hash, listenSocket),
                         [Accept(k, true, now), Process(k, ADMIN_LOGIN, now)]
                         + [Process(k, TEACHER_LOGIN, now), Disconnect(k)]);
            k !in t.clients && "admin" in t.db.sessions && t.db.sessions["admin"].socket == k
  {
    hide Agree, Consistent, LoginUser, InitialDb, ADMIN_LOGIN, TEACHER_LOGIN, Run, Step, InitialServer;
    var s0 := InitialServer(hash, listenSocket);
    var front := [Accept(k, true, now), Process(k, ADMIN_LOGIN, now)];
    var s := Run(s0, front);
    AdminLoggedIn(hash, listenSocket, k, now);
    DefaultsLogIn(s);
    LoginKinds();
    RunConcat(s0, front, [Process(k, TEACHER_LOGIN, now), Disconnect(k)]);
    SecondLoginLeaksSession(s, k, TEACHER_LOGIN, now);
  }

  lemma LoginKinds()
    ensures ADMIN_LOGIN.kind == LOGIN_REQUEST && TEACHER_LOGIN.kind == LOGIN_REQUEST
  {
  }

  /** After `stop` no session is left, if the tables agreed. */
  lemma StopEndsAllSessions(s: Server)
    requires Agree(s) && s.running
    ensures Step(s, Stop).db.sessions == map[] && Step(s, Stop).db.socketToUser == map[]
    ensures Step(s, Stop).clients == map[]
  {
    hide Consistent;
    var after := Evict(s, s.clients.Keys);
    EvictAgree(s, s.clients.Keys);
    assert after.clients == map[];
    assert forall k, u :: !LoggedInAs(after.clients, k, u);
    assert forall u :: u !in after.db.sessions;
    assert forall k :: k !in after.db.socketToUser;
  }
}
