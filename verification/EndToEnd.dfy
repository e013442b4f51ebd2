/** Client and server together: requests, replies and lists through encoding, sockets, framing and parsing. */
module EndToEnd {
  import opened CommonUtils
  import opened Decimal
  import opened MessageStructs
  import opened Framing
  import opened ProtocolStream
  import opened PayloadParser
  import opened Storage
  import opened Handling
  import opened HandlerEffects
  import opened RequestOutcomes
  import opened ReplyDelivery
  import opened ServerCore
  import opened ServerRuns
  import opened Descriptors
  import opened SessionAgreement
  import opened ClientCore

  // ---------------------------------------------------------------- what can get into a reply

  /** No text that could break a reply into lines is stored, and none is about to be. */
  ghost predicate CleanServer(s: Server) {
    CleanDb(s.db) && forall k :: k in s.clients ==> CleanHandler(s.clients[k])
  }

  predicate CleanEvent(e: Event) {
    e.Process? ==> '\n' !in e.message.payload
  }

  ghost predicate CleanEvents(events: seq<Event>) {
    forall i :: 0 <= i < |events| ==> CleanEvent(events[i])
  }

  /** The messages that the server extracts from what it receives are clean, whatever it receives. */
  lemma ReceivedEventsClean(socket: int, input: Input, i: nat)
    requires i < |ClientEvents(socket, input)|
    ensures CleanEvent(ClientEvents(socket, input)[i])
  {
    hide Messages;
    var e := ClientEvents(socket, input)[i];
    if e.Process? {
      assert e.message in Messages(input.received);
      ExtractedMessage(input.received, e.message);
    }
  }

  lemma StepClean(s: Server, e: Event)
    requires CleanServer(s) && CleanEvent(e)
    ensures CleanServer(Step(s, e))
  {
    hide Handle, CleanDb, Departing, TimedOut, Serialize;
    CleanWithoutSessions(s.db);
    if e.Process? && e.socket in s.clients {
      HandleKeepsClean(s.db, s.clients[e.socket], e.message, e.now);
    }
  }

  lemma CleanWithoutSessions(db: Db)
    requires CleanDb(db)
    ensures forall names: set<string> :: CleanDb(WithoutSessions(db, names))
  {
    hide AllClean;
  }

  lemma {:induction false} RunClean(s: Server, events: seq<Event>)
    requires CleanServer(s) && CleanEvents(events)
    ensures CleanServer(Run(s, events))
    decreases |events|
  {
    hide Step, CleanServer, CleanEvent;
    if events != [] {
      RunClean(s, events[..|events| - 1]);
      StepClean(Run(s, events[..|events| - 1]), events[|events| - 1]);
    }
  }

  /** In every reachable state, a reply fails to reach the client in exactly three ways. */
  lemma ReachableReplies(s: Server, events: seq<Event>, socket: int, m: Message, now: int)
    requires CleanServer(s) && CleanEvents(events)
    requires socket in Run(s, events).clients
    ensures var r := ReplyTo(Run(s, events), socket, m, now);
            Deliverable(r) <==> !(Run(s, events).clients[socket].authenticated && m.kind == GET_LESSON_CONTENT_REQUEST)
                                && |r.payload| <= MAX_MESSAGE_SIZE && !EndsWithCR(r.payload)
  {
    hide Handle, Run, CleanDb, Deliverable, EndsWithCR;
    RunClean(s, events);
    ReplyDeliverable(Run(s, events).db, Run(s, events).clients[socket], m, now);
  }

  // ---------------------------------------------------------------- lesson content

  lemma NoBarLine(line: string)
    requires '|' !in line
    ensures LineMessages(line) == []
  {
    hide Stoi;
    var data := DropCR(line);
    assert data[0..] == data;
    FindAbsent(data, '|', 0);
  }

  lemma {:induction false} NoBarLines(text: string)
    requires '|' !in text
    ensures Messages(text) == []
    decreases |text|
  {
    hide LineMessages;
    if '\n' in text {
      var line, rest := TakeLine(text);
      FirstLine(line, rest, LineMessages);
      NoBarLine(line);
      NoBarLines(rest);
    } else {
      NoLine(text, LineMessages);
    }
  }

  /** A payload of several lines, barless after the first, whose first line does not fill the header's length. */
  lemma MultiLineUnreadable(m: Message, q: string, tail: string)
    requires m.payload == q + ['\n'] + tail && '\n' !in q && '|' !in tail && !ValidMessage(m.(payload := DropCR(q)))
    ensures Messages(Serialize(m)) == [] && Leftover(Serialize(m)) == ""
  {
    hide LineMessages, Header, ValidMessage;
    HeaderShape(m);
    assert Serialize(m) == (Header(m) + q) + ['\n'] + (tail + ['\n']);
    FirstLine(Header(m) + q, tail + ['\n'], LineMessages);
    HeaderLine(m, q);
    NoBarLines(tail + ['\n']);
    NothingLeftOver(Serialize(m));
  }

  /** The reply to a lesson content request carries no message at all: its header counts four lines, its line is one. */
  lemma LessonContentUnreadable(id: string)
    requires '\n' !in id
    ensures Messages(Serialize(NewMessage(GET_LESSON_CONTENT_RESPONSE, LessonContent(id)))) == []
    ensures Leftover(Serialize(NewMessage(GET_LESSON_CONTENT_RESPONSE, LessonContent(id)))) == ""
  {
    hide Serialize, Extract, ValidMessage, CONTENT_TAIL;
    var m := NewMessage(GET_LESSON_CONTENT_RESPONSE, LessonContent(id));
    var q := "Content for lesson: " + id;
    TailHasNoBar();
    ShortLineInvalid(m, q);
    MultiLineUnreadable(m, q, CONTENT_TAIL);
  }

  lemma TailHasNoBar()
    ensures '|' !in CONTENT_TAIL + ['\n'] && |CONTENT_TAIL| < 100
  {
    assert '|' !in "Video: video_url" && '|' !in "Audio: audio_url" && '|' !in "Text: lesson_text";
  }

  lemma ShortLineInvalid(m: Message, q: string)
    requires m.length == (|q| + 1 + |CONTENT_TAIL|) % 0x1_0000
    ensures !ValidMessage(m.(payload := DropCR(q)))
  {
    TailHasNoBar();
  }

  lemma TrimmedClean(id: string)
    requires '\n' !in id
    ensures '\n' !in Trim(id)
  {
  }

  // ---------------------------------------------------------------- one reply

  /** What a client makes of a reply that the network brings in full: the reply, or nothing until the call times out. */
  function Received(reply: Message): Option<Message> {
    if Deliverable(reply) then Some(reply) else None
  }

  lemma ContentReplyIs(db: Db, h: Handler, m: Message, now: int)
    requires h.authenticated && m.kind == GET_LESSON_CONTENT_REQUEST
    ensures Handle(db, h, m, now).reply == NewMessage(GET_LESSON_CONTENT_RESPONSE, LessonContent(Trim(m.payload)))
  {
    hide LessonContent, Trim;
  }

  /** A reply is extracted as itself or not at all, and leaves nothing over. */
  lemma ReplyExtracted(db: Db, h: Handler, m: Message, now: int)
    requires CleanDb(db) && '\n' !in m.payload
    ensures var r := Handle(db, h, m, now).reply;
            Messages(Serialize(r)) == (if Deliverable(r) then [r] else []) && Leftover(Serialize(r)) == ""
  {
    hide CleanDb, Handle, LessonContent, Messages, Leftover, Serialize, Trim;
    ReplyNewline(db, h, m, now);
    var r := Handle(db, h, m, now).reply;
    if h.authenticated && m.kind == GET_LESSON_CONTENT_REQUEST {
      ContentReplyIs(db, h, m, now);
      TrimmedClean(m.payload);
      LessonContentUnreadable(Trim(m.payload));
    } else {
      ConstructedOnOneLine(r.kind, r.payload);
    }
  }

  /** In any fragments, the client gets each reply of a handler or times out, and in both cases its buffer is empty. */
  lemma ReplyAwaited(db: Db, h: Handler, m: Message, now: int, attempts: seq<string>)
    requires CleanDb(db) && '\n' !in m.payload && Concat(attempts) == Serialize(Handle(db, h, m, now).reply)
    ensures Await("", attempts) == Awaited(Received(Handle(db, h, m, now).reply), "")
  {
    hide CleanDb, Handle, LineMessages, Deliverable, Serialize;
    var r := Handle(db, h, m, now).reply;
    ReplyExtracted(db, h, m, now);
    if Deliverable(r) {
      DeliveredReply(r, attempts);
    } else {
      assert "" + Concat(attempts) == Serialize(r);
      AwaitFindsFirst("", attempts, LineMessages);
    }
  }

  // ---------------------------------------------------------------- request and reply

  /** The bytes of `packets` that go to one descriptor, in order. */
  function BytesTo(packets: seq<Packet>, socket: int): string
    decreases |packets|
  {
    if packets == [] then ""
    else (if packets[0].socket == socket then packets[0].bytes else "") + BytesTo(packets[1..], socket)
  }

  /**
    One call of `sendMessageSync`: other events happen first; then the server receives the request whole, at one
    time, and the network hands the answering bytes to the client in the fragments `attempts`.
   */
  datatype Exchange = Exchange(before: seq<Event>, request: Message, now: int, attempts: seq<string>)

  function Arrived(s: Server, x: Exchange): Server {
    Run(s, x.before)
  }

  function Served(s: Server, socket: int, x: Exchange): Server {
    Run(Arrived(s, x), DataEvents(socket, Input(true, false, Serialize(x.request), i => x.now)))
  }

  /** This client sends nothing else while it waits: the other events are those of other connections, or a sweep. */
  predicate Silent(events: seq<Event>, socket: int) {
    forall i :: 0 <= i < |events| && events[i].Process? ==> events[i].socket != socket
  }

  function SentSince(s: Server, t: Server): seq<Packet> {
    if |s.sent| <= |t.sent| then t.sent[|s.sent|..] else []
  }

  /** The connection is alive, the request deliverable, and the network reliable, though it may fragment. */
  ghost predicate Sound(s: Server, socket: int, x: Exchange) {
    Silent(x.before, socket) && CleanEvents(x.before) && socket in Arrived(s, x).clients && Deliverable(x.request)
    && Concat(x.attempts) == BytesTo(SentSince(s, Served(s, socket, x)), socket)
  }

  ghost predicate AllSound(s: Server, socket: int, xs: seq<Exchange>)
    decreases |xs|
  {
    xs == [] || (Sound(s, socket, xs[0]) && AllSound(Served(s, socket, xs[0]), socket, xs[1..]))
  }

  /** What the handler answers to each request, in the state in which it arrives. */
  ghost function HandlerReplies(s: Server, socket: int, xs: seq<Exchange>): seq<Message>
    requires AllSound(s, socket, xs)
    decreases |xs|
  {
    if xs == [] then []
    else [ReplyTo(Arrived(s, xs[0]), socket, xs[0].request, xs[0].now)]
         + HandlerReplies(Served(s, socket, xs[0]), socket, xs[1..])
  }

  /** What the client's calls return, each starting with the buffer that the last one left. */
  function ClientReplies(buffer: string, xs: seq<Exchange>): (seq<Option<Message>>, string)
    decreases |xs|
  {
    if xs == [] then ([], buffer)
    else
      var a := Await(buffer, xs[0].attempts);
      var (later, last) := ClientReplies(a.buffer, xs[1..]);
      ([a.reply] + later, last)
  }

  lemma RequestIsProcessed(s: Server, socket: int, request: Message, now: int)
    requires socket in s.clients && Deliverable(request)
    ensures var t := Run(s, DataEvents(socket, Input(true, false, Serialize(request), i => now)));
            t == Receive(s, socket, request, now)
            && t.sent == s.sent + [Packet(socket, Serialize(ReplyTo(s, socket, request, now)))]
  {
    hide Handle, LineMessages, Frame, Messages;
    var input := Input(true, false, Serialize(request), i => now);
    Deliverability(request);
    assert DataEvents(socket, input) == [Process(socket, request, now)];
    RunOne(s, Process(socket, request, now));
  }

  lemma {:induction false} BytesAppended(packets: seq<Packet>, p: Packet, socket: int)
    ensures BytesTo(packets + [p], socket) == BytesTo(packets, socket) + (if p.socket == socket then p.bytes else "")
    decreases |packets|
  {
    if packets == [] {
      assert [p][1..] == [];
    } else {
      BytesAppended(packets[1..], p, socket);
      assert (packets + [p])[1..] == packets[1..] + [p];
    }
  }

  lemma SilentStep(s: Server, e: Event, socket: int)
    requires e.Process? ==> e.socket != socket
    ensures var t := Step(s, e);
            t.sent == s.sent
            || (|t.sent| == |s.sent| + 1 && t.sent[..|s.sent|] == s.sent && t.sent[|s.sent|].socket != socket)
  {
    hide Handle, Serialize, Departing, WithoutSessions, Late;
  }

  /** Other connections' events send nothing to this one. */
  lemma {:induction false} SilentRun(s: Server, events: seq<Event>, socket: int)
    requires Silent(events, socket)
    ensures s.sent <= Run(s, events).sent && BytesTo(SentSince(s, Run(s, events)), socket) == ""
    decreases |events|
  {
    hide Step;
    if events != [] {
      var before := events[..|events| - 1];
      var t, u := Run(s, before), Run(s, events);
      SilentRun(s, before, socket);
      SilentStep(t, events[|events| - 1], socket);
      if u.sent != t.sent {
        var p := u.sent[|t.sent|];
        BytesAppended(SentSince(s, t), p, socket);
        assert SentSince(s, u) == SentSince(s, t) + [p];
      }
    }
  }

  /** One call returns what the handler replied, if that can be delivered, and leaves the buffer empty. */
  lemma OneExchange(s: Server, socket: int, x: Exchange)
    requires CleanServer(s) && Sound(s, socket, x)
    ensures Await("", x.attempts) == Awaited(Received(ReplyTo(Arrived(s, x), socket, x.request, x.now)), "")
    ensures CleanServer(Served(s, socket, x))
  {
    hide Handle, Messages, Run, DataEvents, Receive, Await, Serialize, CleanDb;
    var t := Arrived(s, x);
    var reply := ReplyTo(t, socket, x.request, x.now);
    SilentRun(s, x.before, socket);
    RequestIsProcessed(t, socket, x.request, x.now);
    BytesAppended(SentSince(s, t), Packet(socket, Serialize(reply)), socket);
    assert SentSince(s, Served(s, socket, x)) == SentSince(s, t) + [Packet(socket, Serialize(reply))];
    RunClean(s, x.before);
    StepClean(t, Process(socket, x.request, x.now));
    ReplyAwaited(t.db, t.clients[socket], x.request, x.now, x.attempts);
  }

  /**
    Request/reply correspondence: whatever other clients do in between and however replies are fragmented, the i-th
    call returns the handler's reply to the i-th request, or times out exactly where that reply is not deliverable,
    and the receive buffer is empty between calls.
   */
  lemma {:induction false} Correspondence(s: Server, socket: int, xs: seq<Exchange>)
    requires CleanServer(s) && AllSound(s, socket, xs)
    ensures ClientReplies("", xs).1 == ""
    ensures |ClientReplies("", xs).0| == |xs| == |HandlerReplies(s, socket, xs)|
    ensures forall i :: 0 <= i < |xs| ==> ClientReplies("", xs).0[i] == Received(HandlerReplies(s, socket, xs)[i])
    decreases |xs|
  {
    hide Handle, Sound, Served, Await, ReplyTo, Arrived, CleanServer, Received;
    if xs != [] {
      OneExchange(s, socket, xs[0]);
      Correspondence(Served(s, socket, xs[0]), socket, xs[1..]);
    }
  }

  // ---------------------------------------------------------------- lesson content requests

  /** So `getLessonContent` waits in vain: no fragmentation makes the reply arrive, the call times out. */
  lemma LessonContentNeverArrives(s: Server, socket: int, id: string, now: int, attempts: seq<string>)
    requires socket in s.clients && s.clients[socket].authenticated && '\n' !in id
    requires Concat(attempts) == Serialize(ReplyTo(s, socket, NewMessage(GET_LESSON_CONTENT_REQUEST, id), now))
    ensures Await("", attempts) == Awaited(None, "")
  {
    hide LineMessages, LessonContent, Serialize, Trim;
    var reply := NewMessage(GET_LESSON_CONTENT_RESPONSE, LessonContent(Trim(id)));
    TrimmedClean(id);
    LessonContentUnreadable(Trim(id));
    assert "" + Concat(attempts) == Serialize(reply);
    AwaitFindsFirst("", attempts, LineMessages);
  }

  // ---------------------------------------------------------------- lists

  /** A joined list that reaches the client at all is split into the stored list for exactly the transportable lists. */
  lemma ListTransport(kind: u16, entries: seq<string>, attempts: seq<string>)
    requires Deliverable(NewMessage(kind, JoinEntries(entries)))
    requires Concat(attempts) == Serialize(NewMessage(kind, JoinEntries(entries)))
    ensures ListOf(Await("", attempts).reply, kind) == entries <==> Transportable(entries)
    ensures Await("", attempts).buffer == ""
  {
    hide Split, JoinEntries, Await, Deliverable, Serialize, Transportable;
    DeliveredReply(NewMessage(kind, JoinEntries(entries)), attempts);
    JoinSplitExact(entries);
  }

  /** `getLessonList` end to end: the list of the cached level, exactly if it is transportable. */
  lemma LessonListRequest(s: Server, socket: int, now: int, attempts: seq<string>)
    requires socket in s.clients && s.clients[socket].authenticated
    requires var r := ReplyTo(s, socket, NewMessage(GET_LESSON_LIST_REQUEST, ""), now);
             Deliverable(r) && Concat(attempts) == Serialize(r)
    ensures var list := LessonsFor(s.db, s.clients[socket].level);
            ListOf(Await("", attempts).reply, GET_LESSON_LIST_RESPONSE) == list <==> Transportable(list)
  {
    hide Split, JoinEntries, Await, Deliverable, Serialize, Transportable, ListOf, Entries, LevelName;
    ListTransport(GET_LESSON_LIST_RESPONSE, LessonsFor(s.db, s.clients[socket].level), attempts);
  }

  lemma FeedbackReply(s: Server, socket: int, now: int)
    requires socket in s.clients && s.clients[socket].authenticated
    ensures ReplyTo(s, socket, NewMessage(GET_FEEDBACK_REQUEST, ""), now)
         == NewMessage(GET_FEEDBACK_RESPONSE, JoinEntries(Entries(s.db.feedbacks, s.clients[socket].username)))
  {
    hide JoinEntries, Entries;
  }

  /** `getFeedback` end to end: the feedback of the logged-in user, exactly if it is transportable. */
  lemma FeedbackListRequest(s: Server, socket: int, now: int, attempts: seq<string>)
    requires socket in s.clients && s.clients[socket].authenticated
    requires var r := ReplyTo(s, socket, NewMessage(GET_FEEDBACK_REQUEST, ""), now);
             Deliverable(r) && Concat(attempts) == Serialize(r)
    ensures var list := Entries(s.db.feedbacks, s.clients[socket].username);
            ListOf(Await("", attempts).reply, GET_FEEDBACK_RESPONSE) == list <==> Transportable(list)
  {
    hide Split, JoinEntries, Await, Deliverable, Serialize, Transportable, ListOf, Entries, ReplyTo;
    FeedbackReply(s, socket, now);
    ListTransport(GET_FEEDBACK_RESPONSE, Entries(s.db.feedbacks, s.clients[socket].username), attempts);
  }

  /** A guest's list requests bring empty lists, in any fragmentation. */
  lemma GuestListsEmpty(s: Server, socket: int, kind: u16, now: int, attempts: seq<string>)
    requires socket in s.clients && !s.clients[socket].authenticated
    requires kind == GET_LESSON_LIST_REQUEST || kind == GET_FEEDBACK_REQUEST
    requires Concat(attempts) == Serialize(ReplyTo(s, socket, NewMessage(kind, ""), now))
    ensures ListOf(Await("", attempts).reply, GET_LESSON_LIST_RESPONSE) == []
         == ListOf(Await("", attempts).reply, GET_FEEDBACK_RESPONSE)
  {
    hide LineMessages, Serialize, Deliverable, Handle, Extract, Leftover, AwaitWith;
    GuestsRefused(s.db, s.clients[socket], NewMessage(kind, ""), now);
    GuestTextClean();
    ConstructedOnOneLine(ERROR_MESSAGE, "5|" + "Authentication required");
    assert "" + Concat(attempts) == Serialize(NewMessage(ERROR_MESSAGE, "5|" + "Authentication required"));
    AwaitFindsFirst("", attempts, LineMessages);
  }

  lemma GuestTextClean()
    ensures '\n' !in "5|" + "Authentication required"
  {
  }

  lemma FeedbackEntryNonempty(s: Server, e: Event, t: string, entry: string)
    requires AddsFeedback(s, e, t, entry)
    ensures entry != ""
  {
    hide Split;
  }

  /** Feedback entries are never empty, so in every reachable state only a semicolon inside one spoils their list. */
  lemma FeedbackTransportable(hash: string -> string, listenSocket: int, events: seq<Event>, u: string)
    ensures var list := Entries(Run(InitialServer(hash, listenSocket), events).db.feedbacks, u);
            Transportable(list) <==> AllFree(list, ';')
  {
    hide Run, AddsFeedback;
    var s := InitialServer(hash, listenSocket);
    var list := Entries(Run(s, events).db.feedbacks, u);
    InitialConsistent(hash, listenSocket);
    forall i | 0 <= i < |list| ensures list[i] != "" {
      FeedbackProvenance(s, events, u, i);
      var j :| 0 <= j < |events| && AddsFeedback(Run(s, events[..j]), events[j], u, list[i]);
      FeedbackEntryNonempty(Run(s, events[..j]), events[j], u, list[i]);
    }
  }

  /**
    `getFeedback` over any run and in any fragmentation: the stored entries arrive exactly if no entry has a semicolon
    and the joined text has at most 8192 bytes and no CR at its end.
   */
  lemma FeedbackListArrives(hash: string -> string, listenSocket: int, events: seq<Event>, socket: int, now: int,
                            attempts: seq<string>)
    requires CleanEvents(events)
    requires var s := Run(InitialServer(hash, listenSocket), events);
             socket in s.clients && s.clients[socket].authenticated
             && Concat(attempts) == Serialize(ReplyTo(s, socket, NewMessage(GET_FEEDBACK_REQUEST, ""), now))
    ensures var s := Run(InitialServer(hash, listenSocket), events);
            var list := Entries(s.db.feedbacks, s.clients[socket].username);
            var joined := JoinEntries(list);
            (ListOf(Await("", attempts).reply, GET_FEEDBACK_RESPONSE) == list
             <==> AllFree(list, ';') && |joined| <= MAX_MESSAGE_SIZE && !EndsWithCR(joined))
            && Await("", attempts).buffer == ""
  {
    hide Run, Await, Serialize, Handle, Deliverable, Transportable, ListOf, InitialServer;
    hide CleanDb, AllFree, CleanEvents, Entries;
    var s := Run(InitialServer(hash, listenSocket), events);
    var request := NewMessage(GET_FEEDBACK_REQUEST, "");
    InitialClean(hash, listenSocket);
    RunClean(InitialServer(hash, listenSocket), events);
    ReplyAwaited(s.db, s.clients[socket], request, now, attempts);
    ReplyDeliverable(s.db, s.clients[socket], request, now);
    FeedbackTransportable(hash, listenSocket, events, s.clients[socket].username);
    FeedbackReply(s, socket, now);
    FeedbackAsReceived(Entries(s.db.feedbacks, s.clients[socket].username), attempts);
  }

  /** What a joined list becomes on the way: itself, for a transportable list in a deliverable message only. */
  lemma FeedbackAsReceived(list: seq<string>, attempts: seq<string>)
    requires var m := NewMessage(GET_FEEDBACK_RESPONSE, JoinEntries(list));
             Concat(attempts) == Serialize(m) && Await("", attempts) == Awaited(Received(m), "")
    ensures ListOf(Await("", attempts).reply, GET_FEEDBACK_RESPONSE) == list
       <==> Transportable(list) && Deliverable(NewMessage(GET_FEEDBACK_RESPONSE, JoinEntries(list)))
  {
    hide Await, Serialize;
    var m := NewMessage(GET_FEEDBACK_RESPONSE, JoinEntries(list));
    assert list == [] ==> JoinEntries(list) == "";
    if Deliverable(m) {
      hide Deliverable, Transportable, JoinEntries, ListOf;
      ListTransport(GET_FEEDBACK_RESPONSE, list, attempts);
    }
  }

  // ---------------------------------------------------------------- login and score

  lemma NumbersDeliverable(kind: u16, text: string)
    requires kind != UNKNOWN && 0 < |text| <= 40
    requires forall i :: 0 <= i < |text| ==> IsDigit(text[i]) || text[i] == '|'
    ensures Deliverable(NewMessage(kind, text))
  {
  }

  lemma LoginTextShape(user: User)
    requires 0 <= user.score <= INT_MAX
    ensures 0 < |LoginText(user)| <= 40
    ensures forall i :: 0 <= i < |LoginText(user)| ==> IsDigit(LoginText(user)[i]) || LoginText(user)[i] == '|'
  {
    hide Digits;
    DigitsLength(user.role);
    DigitsLength(user.level);
    DigitsLength(user.score);
    DigitsAreDigits(user.role);
    DigitsAreDigits(user.level);
    DigitsAreDigits(user.score);
  }

  /** `login` end to end: whatever the fragmentation, the client gets the stored role, level and score. */
  lemma LoginProfile(username: string, user: User, attempts: seq<string>)
    requires 0 <= user.score <= INT_MAX
    requires Concat(attempts) == Serialize(NewMessage(LOGIN_SUCCESS, LoginText(user)))
    ensures LoginResultOf(username, Await("", attempts).reply)
         == LoggedIn(Some(Profile(username, user.role, user.level, user.score)))
  {
    hide Split, Await, Serialize, Deliverable, LoginText, Stoi, ToString;
    LoginTextShape(user);
    NumbersDeliverable(LOGIN_SUCCESS, LoginText(user));
    DeliveredReply(NewMessage(LOGIN_SUCCESS, LoginText(user)), attempts);
    LoginTextRole(user);
  }

  /**
    `login` is refused by exactly the replies that are no LOGIN_SUCCESS, or by none at all; a success with less than
    three fields leaves the profile as it was, and one with a field that is no number throws.
   */
  lemma LoginResultExactly(username: string, reply: Option<Message>)
    ensures LoginResultOf(username, reply) == Refused <==> reply == None || reply.value.kind != LOGIN_SUCCESS
    ensures reply.Some? && reply.value.kind == LOGIN_SUCCESS ==>
              var parts := Split(reply.value.payload, '|');
              (LoginResultOf(username, reply) == LoggedIn(None) <==> |parts| < 3)
              && (LoginResultOf(username, reply) == Thrown
                  <==> |parts| >= 3 && (Stoi(parts[0]) == None || Stoi(parts[1]) == None || Stoi(parts[2]) == None))
  {
    hide Split, Stoi;
  }

  lemma OtherReplyRefuses(username: string, kind: u16, text: string, attempts: seq<string>)
    requires kind != LOGIN_SUCCESS && '\n' !in text && Concat(attempts) == Serialize(NewMessage(kind, text))
    ensures LoginResultOf(username, Await("", attempts).reply) == Refused
  {
    hide LineMessages, Serialize, Deliverable, Extract, Leftover, AwaitWith, LoginResultOf;
    ConstructedOnOneLine(kind, text);
    assert "" + Concat(attempts) == Serialize(NewMessage(kind, text));
    AwaitFindsFirst("", attempts, LineMessages);
    LoginResultExactly(username, Await("", attempts).reply);
  }

  lemma RefusedLogin(db: Db, h: Handler, m: Message, now: int, username: string, attempts: seq<string>)
    requires m.kind == LOGIN_REQUEST && !StoredWith(db, ParseLogin(m.payload))
    requires Concat(attempts) == Serialize(Handle(db, h, m, now).reply)
    ensures LoginResultOf(username, Await("", attempts).reply) == Refused
  {
    hide Handle, ParseLogin, Await, Serialize, LoginResultOf;
    LoginExactly(db, h, m, now);
    LoginIsPlain(db, h, m, now);
    var r := Handle(db, h, m, now).reply;
    OtherReplyRefuses(username, r.kind, r.payload, attempts);
  }

  lemma LoginIsPlain(db: Db, h: Handler, m: Message, now: int)
    requires m.kind == LOGIN_REQUEST
    ensures Plain(Handle(db, h, m, now).reply)
  {
    hide Login, Plain;
    LoginReply(db, h.(lastActivity := now), m.payload);
  }

  /**
    `login` over any run and in any fragmentation, for any two strings: the client is logged in and learns the stored
    profile exactly if what the server reads is a stored user with this password's hash, and is refused otherwise.
   */
  lemma LoginAtClient(hash: string -> string, listenSocket: int, events: seq<Event>, socket: int, now: int,
                      username: string, password: string, attempts: seq<string>)
    requires Submissions(events) <= 214748364
    requires var s := Run(InitialServer(hash, listenSocket), events);
             socket in s.clients
             && Concat(attempts)
             == Serialize(ReplyTo(s, socket, NewMessage(LOGIN_REQUEST, CreateLogin(username, password)), now))
    ensures var db := Run(InitialServer(hash, listenSocket), events).db;
            var c := ParseLogin(CreateLogin(username, password));
            LoginResultOf(username, Await("", attempts).reply)
            == if c.Some? && c.value.username in db.users
                  && db.users[c.value.username].passwordHash == db.hash(c.value.password)
               then var user := db.users[c.value.username];
                    LoggedIn(Some(Profile(username, user.role, user.level, user.score)))
               else Refused
  {
    hide Run, Await, Serialize, LoginText, ParseLogin, CreateLogin, Earned, InitialServer, LoginResultOf, Handle;
    var s := Run(InitialServer(hash, listenSocket), events);
    var m := NewMessage(LOGIN_REQUEST, CreateLogin(username, password));
    var c := ParseLogin(m.payload);
    if StoredWith(s.db, c) {
      ScoreFitsInt(hash, listenSocket, events, c.value.username);
      LoginSucceeds(s.db, s.clients[socket], m, now, c.value);
      LoginProfile(username, s.db.users[c.value.username], attempts);
    } else {
      RefusedLogin(s.db, s.clients[socket], m, now, username, attempts);
    }
  }

  /** So acceptable credentials of a stored user log in, whatever blanks the client was given around them. */
  lemma LoginArrives(hash: string -> string, listenSocket: int, events: seq<Event>, socket: int, now: int,
                     username: string, password: string, attempts: seq<string>)
    requires Submissions(events) <= 214748364 && Acceptable(username, password)
    requires var s := Run(InitialServer(hash, listenSocket), events);
             socket in s.clients
             && Authenticates(s.db, Trim(username), s.db.hash(Trim(password)))
             && Concat(attempts)
             == Serialize(ReplyTo(s, socket, NewMessage(LOGIN_REQUEST, CreateLogin(username, password)), now))
    ensures var user := Run(InitialServer(hash, listenSocket), events).db.users[Trim(username)];
            LoginResultOf(username, Await("", attempts).reply)
            == LoggedIn(Some(Profile(username, user.role, user.level, user.score)))
  {
    hide Run, Await, Serialize, ParseLogin, CreateLogin, Trim, InitialServer, LoginResultOf, ReplyTo, Acceptable;
    LoginBuilder(username, password);
    LoginAtClient(hash, listenSocket, events, socket, now, username, password, attempts);
  }

  /** What `getScore` returns for a reply; `None` where its `stoi` throws. */
  function ScoreOf(reply: Option<Message>): Option<int> {
    if reply.Some? && reply.value.kind == GET_SCORE_RESPONSE then Stoi(reply.value.payload) else Some(0)
  }

  /** `getScore` end to end and over any run: the points announced so far to all connections of this user. */
  lemma ScoreEndToEnd(hash: string -> string, listenSocket: int, events: seq<Event>, socket: int, now: int,
                      attempts: seq<string>)
    requires Submissions(events) <= 214748364
    requires var s := Run(InitialServer(hash, listenSocket), events);
             socket in s.clients && s.clients[socket].authenticated
             && Concat(attempts) == Serialize(ReplyTo(s, socket, NewMessage(GET_SCORE_REQUEST, ""), now))
    ensures var s := Run(InitialServer(hash, listenSocket), events);
            ScoreOf(Await("", attempts).reply)
            == Some(Earned(InitialServer(hash, listenSocket), events, s.clients[socket].username))
  {
    hide Await, Serialize, Deliverable, Stoi, ToString, Run, Earned, InitialServer;
    var s := Run(InitialServer(hash, listenSocket), events);
    var u := s.clients[socket].username;
    IdentityInvariant(hash, listenSocket, events);
    ScoreFitsInt(hash, listenSocket, events, u);
    var score := s.db.users[u].score;
    var reply := NewMessage(GET_SCORE_RESPONSE, ToString(score));
    ScoreReply(s, socket, now);
    ScoreTextShape(score);
    NumbersDeliverable(GET_SCORE_RESPONSE, ToString(score));
    DeliveredReply(reply, attempts);
  }

  lemma ScoreReply(s: Server, socket: int, now: int)
    requires socket in s.clients && s.clients[socket].authenticated && s.clients[socket].username in s.db.users
    ensures ReplyTo(s, socket, NewMessage(GET_SCORE_REQUEST, ""), now)
         == NewMessage(GET_SCORE_RESPONSE, ToString(s.db.users[s.clients[socket].username].score))
  {
    hide ToString;
  }

  lemma ScoreTextShape(score: int)
    requires 0 <= score <= INT_MAX
    ensures 0 < |ToString(score)| <= 40 && Stoi(ToString(score)) == Some(score)
    ensures forall i :: 0 <= i < |ToString(score)| ==> IsDigit(ToString(score)[i]) || ToString(score)[i] == '|'
  {
    DigitsLength(score);
    DigitsAreDigits(score);
    StoiDigits(score);
  }

  // ---------------------------------------------------------------- lesson lists

  /** Lessons are never touched, and levels are one of the three. */
  ghost predicate LessonsOk(s: Server) {
    s.db.lessons == SAMPLE_LESSONS
    && (forall u :: u in s.db.users ==> 1 <= s.db.users[u].level <= 3)
    && forall k :: k in s.clients ==> 1 <= s.clients[k].level <= 3
  }

  predicate LevelsKept(lessons: map<string, seq<string>>, o: Outcome) {
    o.db.lessons == lessons && 1 <= o.handler.level <= 3
    && forall u :: u in o.db.users ==> 1 <= o.db.users[u].level <= 3
  }

  lemma EntryLevels(db: Db, h: Handler, payload: string)
    requires LevelsKept(db.lessons, Outcome(db, h, LOGIN_FIRST))
    ensures LevelsKept(db.lessons, Register(db, h, payload)) && LevelsKept(db.lessons, Login(db, h, payload))
  {
    hide NewMessage, Error, ParseRegister, ParseLogin, LoginText;
  }

  lemma SetLevelLevels(db: Db, h: Handler, payload: string)
    requires LevelsKept(db.lessons, Outcome(db, h, LOGIN_FIRST))
    ensures LevelsKept(db.lessons, SetLevel(db, h, payload))
  {
    hide NewMessage, Error, Stoi, Trim;
  }

  lemma SubmitLevels(db: Db, h: Handler, payload: string)
    requires LevelsKept(db.lessons, Outcome(db, h, LOGIN_FIRST))
    ensures LevelsKept(db.lessons, SubmitQuiz(db, h, payload)) && LevelsKept(db.lessons, SubmitExercise(db, h, payload))
  {
    hide NewMessage, Error, Split, ToString;
  }

  lemma AppendLevels(db: Db, h: Handler, payload: string)
    requires LevelsKept(db.lessons, Outcome(db, h, LOGIN_FIRST))
    ensures LevelsKept(db.lessons, SendFeedback(db, h, payload)) && LevelsKept(db.lessons, AddGameItem(db, h, payload))
  {
    hide NewMessage, Error, Split, ErrorText, SuccessText, FeedbackEntry, Appended;
  }

  lemma WriteLevels(db: Db, h: Handler, m: Message)
    requires LevelsKept(db.lessons, Outcome(db, h, LOGIN_FIRST))
    ensures LevelsKept(db.lessons, Write(db, h, m))
  {
    hide SetLevel, SubmitQuiz, SubmitExercise, SendFeedback, AddGameItem, NewMessage;
    SetLevelLevels(db, h, m.payload);
    SubmitLevels(db, h, m.payload);
    AppendLevels(db, h, m.payload);
  }

  lemma HandleLevels(db: Db, h: Handler, m: Message, now: int)
    requires LevelsKept(db.lessons, Outcome(db, h, LOGIN_FIRST))
    ensures LevelsKept(db.lessons, Handle(db, h, m, now))
  {
    hide Register, Login, Write, Answer, NewMessage, Error;
    var stamped := h.(lastActivity := now);
    EntryLevels(db, stamped, m.payload);
    WriteLevels(db, stamped, m);
  }

  lemma StepLessons(s: Server, e: Event)
    requires LessonsOk(s)
    ensures LessonsOk(Step(s, e))
  {
    hide Handle, Departing, TimedOut, Serialize, SAMPLE_LESSONS;
    if e.Process? && e.socket in s.clients {
      HandleLevels(s.db, s.clients[e.socket], e.message, e.now);
    }
  }

  lemma {:induction false} RunLessons(hash: string -> string, listenSocket: int, events: seq<Event>)
    ensures LessonsOk(Run(InitialServer(hash, listenSocket), events))
    decreases |events|
  {
    if events != [] {
      hide Step, LessonsOk;
      RunLessons(hash, listenSocket, events[..|events| - 1]);
      StepLessons(Run(InitialServer(hash, listenSocket), events[..|events| - 1]), events[|events| - 1]);
    }
  }

  function SampleLessons(level: u8): seq<string> {
    if level == BEGINNER then BEGINNER_LESSONS
    else if level == INTERMEDIATE then INTERMEDIATE_LESSONS
    else ADVANCED_LESSONS
  }

  predicate PlainChar(c: char) {
    c != ';' && c != '\n' && c != '\r'
  }

  predicate SimpleLesson(title: string) {
    0 < |title| <= 60 && forall i :: 0 <= i < |title| ==> PlainChar(title[i])
  }

  lemma BeginnerLessons()
    ensures SimpleLesson(BEGINNER_LESSONS[0]) && SimpleLesson(BEGINNER_LESSONS[1]) && SimpleLesson(BEGINNER_LESSONS[2])
  {
  }

  lemma IntermediateLessons()
    ensures SimpleLesson(INTERMEDIATE_LESSONS[0]) && SimpleLesson(INTERMEDIATE_LESSONS[1])
         && SimpleLesson(INTERMEDIATE_LESSONS[2])
  {
  }

  lemma AdvancedLessons()
    ensures SimpleLesson(ADVANCED_LESSONS[0]) && SimpleLesson(ADVANCED_LESSONS[1]) && SimpleLesson(ADVANCED_LESSONS[2])
  {
  }

  lemma SamplesAreSimple(level: u8)
    ensures var l := SampleLessons(level);
            |l| == 3 && SimpleLesson(l[0]) && SimpleLesson(l[1]) && SimpleLesson(l[2])
  {
    hide SimpleLesson;
    BeginnerLessons();
    IntermediateLessons();
    AdvancedLessons();
  }

  lemma SamplesArrive(list: seq<string>)
    requires |list| == 3 && SimpleLesson(list[0]) && SimpleLesson(list[1]) && SimpleLesson(list[2])
    ensures Transportable(list) && Deliverable(NewMessage(GET_LESSON_LIST_RESPONSE, JoinEntries(list)))
  {
    JoinIsIntercalate(list);
    var tail := list[1..];
    assert tail[1..] == [list[2]];
    assert Intercalate([list[2]]) == list[2];
    assert Intercalate(tail) == list[1] + [';'] + list[2];
    assert Intercalate(list) == list[0] + [';'] + (list[1] + [';'] + list[2]);
    assert list[2][|list[2]| - 1] in list[2];
  }

  /** In every reachable state, a logged-in client's `getLessonList` returns exactly its level's lessons. */
  lemma LessonListArrives(hash: string -> string, listenSocket: int, events: seq<Event>, socket: int, now: int,
                          attempts: seq<string>)
    requires var s := Run(InitialServer(hash, listenSocket), events);
             socket in s.clients && s.clients[socket].authenticated
             && Concat(attempts) == Serialize(ReplyTo(s, socket, NewMessage(GET_LESSON_LIST_REQUEST, ""), now))
    ensures var s := Run(InitialServer(hash, listenSocket), events);
            ListOf(Await("", attempts).reply, GET_LESSON_LIST_RESPONSE) == SampleLessons(s.clients[socket].level)
            && Await("", attempts).buffer == ""
  {
    hide Run, Await, Serialize, Deliverable, Transportable, JoinEntries, ListOf;
    hide SampleLessons, InitialServer, SimpleLesson;
    var s := Run(InitialServer(hash, listenSocket), events);
    RunLessons(hash, listenSocket, events);
    var level := s.clients[socket].level;
    var list := SampleLessons(level);
    LessonsAre(s.db, level);
    SamplesAreSimple(level);
    SamplesArrive(list);
    LessonReply(s, socket, now);
    ListTransport(GET_LESSON_LIST_RESPONSE, list, attempts);
  }

  /**
    Over any run whose logins are disciplined, these are the lessons of the level that was last set for the user, on
    whatever connection.
   */
  lemma LessonsOfLastLevel(hash: string -> string, listenSocket: int, events: seq<Event>, socket: int, now: int,
                           attempts: seq<string>)
    requires listenSocket != INVALID_SOCKET
    requires var s0 := InitialServer(hash, listenSocket);
             PossibleRun(s0, events) && AlwaysDisciplined(s0, events)
    requires var s := Run(InitialServer(hash, listenSocket), events);
             socket in s.clients && s.clients[socket].authenticated
             && Concat(attempts) == Serialize(ReplyTo(s, socket, NewMessage(GET_LESSON_LIST_REQUEST, ""), now))
    ensures var s0 := InitialServer(hash, listenSocket);
            var level := LastLevel(s0, events, Run(s0, events).clients[socket].username);
            ListOf(Await("", attempts).reply, GET_LESSON_LIST_RESPONSE) == SampleLessons(level)
  {
    hide Run, Await, Serialize, ListOf, SampleLessons, InitialServer, LastLevel, Handle, PossibleRun;
    hide AlwaysDisciplined, AlwaysAgree, Consistent, DescriptorsOk;
    var s0 := InitialServer(hash, listenSocket);
    var s := Run(s0, events);
    InitialAgree(hash, listenSocket);
    InitialConsistent(hash, listenSocket);
    InitialDescriptors(hash, listenSocket);
    SessionAgreementExactly(s0, events);
    LastAgrees(s0, events);
    assert HandlerOwnsSession(s.db, socket, s.clients[socket]);
    StoredLevelIsLastSet(s0, events, s.clients[socket].username);
    LessonListArrives(hash, listenSocket, events, socket, now, attempts);
  }

  lemma LessonsAre(db: Db, level: u8)
    requires db.lessons == SAMPLE_LESSONS && 1 <= level <= 3
    ensures LessonsFor(db, level) == SampleLessons(level)
  {
  }

  lemma LessonReply(s: Server, socket: int, now: int)
    requires socket in s.clients && s.clients[socket].authenticated
    ensures ReplyTo(s, socket, NewMessage(GET_LESSON_LIST_REQUEST, ""), now)
         == NewMessage(GET_LESSON_LIST_RESPONSE, JoinEntries(LessonsFor(s.db, s.clients[socket].level)))
  {
    hide JoinEntries, LessonsFor;
  }

  lemma SamplesClean(level: u8)
    ensures AllFree(SampleLessons(level), '\n')
  {
    hide SampleLessons;
    SamplesAreSimple(level);
  }

  lemma InitialClean(hash: string -> string, listenSocket: int)
    ensures CleanServer(InitialServer(hash, listenSocket))
  {
    hide BEGINNER_LESSONS, INTERMEDIATE_LESSONS, ADVANCED_LESSONS;
    SamplesClean(BEGINNER);
    SamplesClean(INTERMEDIATE);
    SamplesClean(ADVANCED);
  }
}
