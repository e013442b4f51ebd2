/** The server (src/server/Server.cpp, POSIX branch): a step per event, and the class whose loop makes the steps. */
module ServerCore {
  import opened MessageStructs
  import opened ProtocolStream
  import opened Storage
  import opened Handling

  const INVALID_SOCKET: int := -1

  /** One call of `Network::sendData`. */
  datatype Packet = Packet(socket: int, bytes: string)

  /** `open`: the descriptors that this process holds open; `sent`: everything handed to the network. */
  datatype Server = Server(
    db: Db, clients: map<int, Handler>, open: set<int>, listenSocket: int, running: bool, sent: seq<Packet>)

  datatype Event =
    | Accept(socket: int, nonBlocking: bool, now: int)
    | Process(socket: int, message: Message, now: int)
    | Disconnect(socket: int)
    | Sweep(clock: int -> int)
    | Stop

  /** The server when its main loop is entered. */
  function InitialServer(hash: string -> string, listenSocket: int): Server {
    Server(InitialDb(hash), map[], {listenSocket}, listenSocket, true, [])
  }

  // ---------------------------------------------------------------- one step

  /** The users whose sessions the destructors of the handlers at `gone` end. */
  function Departing(clients: map<int, Handler>, gone: set<int>): set<string> {
    set k | k in gone && k in clients && clients[k].authenticated :: clients[k].username
  }

  /** Descriptors closed, handlers destroyed and their sessions ended. */
  function Evict(s: Server, gone: set<int>): Server {
    s.(db := WithoutSessions(s.db, Departing(s.clients, gone)), clients := s.clients - gone, open := s.open - gone)
  }

  function Late(s: Server, clock: int -> int): set<int> {
    set k | k in s.clients && TimedOut(s.clients[k], clock(k))
  }

  function Receive(s: Server, socket: int, message: Message, now: int): Server {
    if socket !in s.clients then s
    else
      var o := Handle(s.db, s.clients[socket], message, now);
      s.(db := o.db, clients := s.clients[socket := o.handler],
         sent := s.sent + [Packet(socket, Serialize(o.reply))])
  }

  function Admit(s: Server, socket: int, now: int): Server {
    var db := if socket in s.clients then WithoutSessions(s.db, Departing(s.clients, {socket})) else s.db;
    s.(db := db, clients := s.clients[socket := NewHandler(socket, now)], open := s.open + {socket})
  }

  function Step(s: Server, e: Event): Server {
    match e
    case Accept(socket, nonBlocking, now) => if nonBlocking then Admit(s, socket, now) else s
    case Process(socket, message, now) => Receive(s, socket, message, now)
    case Disconnect(socket) => Evict(s, {socket})
    case Sweep(clock) => Evict(s, Late(s, clock))
    case Stop =>
      if s.running then
        var e := Evict(s, s.clients.Keys);
        e.(running := false, open := e.open - {s.listenSocket}, listenSocket := INVALID_SOCKET)
      else s
  }

  // ---------------------------------------------------------------- runs

  function Run(s: Server, events: seq<Event>): Server
    decreases |events|
  {
    if events == [] then s else Step(Run(s, events[..|events| - 1]), events[|events| - 1])
  }

  lemma NobodyDeparts(s: Server, gone: set<int>)
    requires gone * s.clients.Keys == {}
    ensures WithoutSessions(s.db, Departing(s.clients, gone)) == s.db
  {
    assert forall k :: k in gone && k in s.clients ==> k in gone * s.clients.Keys;
    assert Departing(s.clients, gone) == {};
    WithoutNoSessions(s.db, {});
  }

  lemma RunNext(s: Server, events: seq<Event>, i: nat)
    requires i < |events|
    ensures Run(s, events[..i + 1]) == Step(Run(s, events[..i]), events[i])
  {
    assert events[..i + 1][..i] == events[..i];
  }

  lemma {:induction false} RunConcat(s: Server, a: seq<Event>, b: seq<Event>)
    ensures Run(s, a + b) == Run(Run(s, a), b)
    decreases |b|
  {
    if b == [] {
      assert a + b == a;
    } else {
      var c := b[..|b| - 1];
      RunConcat(s, a, c);
      assert (a + b)[..|a + b| - 1] == a + c;
    }
  }

  lemma RunOne(s: Server, e: Event)
    ensures Run(s, [e]) == Step(s, e)
  {
    assert [e][..0] == [];
  }

  // ---------------------------------------------------------------- events of one receive and of one poll round

  /** The messages of one receive, each processed at its own clock reading. */
  function ProcessAll(socket: int, messages: seq<Message>, clock: nat -> int): seq<Event> {
    seq(|messages|, (i: nat) requires i < |messages| => Process(socket, messages[i], clock(i)))
  }

  /** What `poll` and the following `recv` report for one client; nothing received is an end of stream or an error. */
  datatype Input = Input(pollIn: bool, hangUp: bool, received: string, clock: nat -> int)

  /** What `poll` and the following `accept` report for the listen socket. */
  datatype Incoming = Nothing | Connection(socket: int, nonBlocking: bool, now: int)

  function DataEvents(socket: int, input: Input): seq<Event> {
    if !input.pollIn then []
    else if input.received == "" then [Disconnect(socket)]
    else ProcessAll(socket, Messages(input.received), input.clock)
  }

  function ClientEvents(socket: int, input: Input): seq<Event> {
    DataEvents(socket, input) + (if input.hangUp then [Disconnect(socket)] else [])
  }

  function IncomingEvents(incoming: Incoming): seq<Event> {
    match incoming
    case Nothing => []
    case Connection(socket, nonBlocking, now) =>
      if socket == INVALID_SOCKET then [] else [Accept(socket, nonBlocking, now)]
  }

  /** What one entry of the poll list causes; the listen socket is told apart by its descriptor. */
  function EntryEvents(s: Server, fd: int, incoming: Incoming, inputs: map<int, Input>): seq<Event> {
    if fd == s.listenSocket then IncomingEvents(incoming)
    else if fd in inputs then ClientEvents(fd, inputs[fd])
    else []
  }

  function ListEvents(s: Server, pollFds: seq<int>, incoming: Incoming, inputs: map<int, Input>): seq<Event>
    decreases |pollFds|
  {
    if pollFds == [] then []
    else
      var n := |pollFds| - 1;
      ListEvents(s, pollFds[..n], incoming, inputs) + EntryEvents(s, pollFds[n], incoming, inputs)
  }

  /** The poll list is rebuilt every round: the listen socket, then the clients in the order of their map. */
  ghost predicate IsPollList(s: Server, pollFds: seq<int>) {
    pollFds != [] && pollFds[0] == s.listenSocket
    && (forall k :: k in s.clients <==> k in pollFds[1..])
    && forall i, j :: 1 <= i < j < |pollFds| ==> pollFds[i] < pollFds[j]
  }

  /** Every open descriptor is the listen socket or a client, and each client's is open. */
  predicate DescriptorsOk(s: Server) {
    s.open == s.clients.Keys + (if s.listenSocket == INVALID_SOCKET then {} else {s.listenSocket})
    && s.listenSocket !in s.clients && INVALID_SOCKET !in s.clients
  }

  lemma LaterEntryIsClient(s: Server, pollFds: seq<int>, i: nat)
    requires IsPollList(s, pollFds) && 0 < i < |pollFds|
    ensures pollFds[i] in s.clients
  {
    assert pollFds[1..][i - 1] == pollFds[i];
  }

  // ---------------------------------------------------------------- evicting several clients

  lemma DepartingUnion(clients: map<int, Handler>, a: set<int>, b: set<int>)
    ensures Departing(clients, a + b) == Departing(clients, a) + Departing(clients, b)
    ensures a !! b ==> Departing(clients - a, b) == Departing(clients, b)
  {
  }

  lemma DepartMore(db: Db, clients: map<int, Handler>, gone: set<int>, k: int)
    ensures WithoutSessions(WithoutSessions(db, Departing(clients, gone)), Departing(clients, {k}))
         == WithoutSessions(db, Departing(clients, gone + {k}))
  {
    hide Departing, WithoutSessions;
    DepartingUnion(clients, gone, {k});
    WithoutUnion(db, Departing(clients, gone), Departing(clients, {k}));
  }

  lemma EvictMore(s: Server, a: set<int>, b: set<int>)
    requires a !! b
    ensures Evict(Evict(s, a), b) == Evict(s, a + b)
  {
    hide WithoutSessions, Departing;
    DepartingUnion(s.clients, a, b);
    WithoutUnion(s.db, Departing(s.clients, a), Departing(s.clients, b));
    assert (s.clients - a) - b == s.clients - (a + b);
    assert (s.open - a) - b == s.open - (a + b);
  }

  lemma EvictNobody(s: Server)
    ensures Evict(s, {}) == s
  {
    NobodyDeparts(s, {});
    assert s.clients - {} == s.clients && s.open - {} == s.open;
  }

  lemma SweepStep(s: Server, clock: int -> int)
    ensures Step(s, Sweep(clock)) == Evict(s, Late(s, clock))
  {
  }

  lemma DisconnectStep(s: Server, k: int)
    ensures Step(s, Disconnect(k)) == Evict(s, {k})
  {
  }

  lemma SomeMember(keys: set<int>)
    requires keys != {}
    ensures exists k :: k in keys
  {
    assert (forall k :: k !in keys) ==> keys == {};
  }

  lemma LateAreClients(s: Server, clock: int -> int)
    ensures Late(s, clock) - s.clients.Keys == {}
    ensures Late(s, clock) - {} == Late(s, clock)
  {
    hide TimedOut;
  }

  lemma LateStep(s: Server, clock: int -> int, pending: set<int>, k: int)
    requires k in pending && k in s.clients
    ensures var gone := Late(s, clock) - pending;
            Late(s, clock) - (pending - {k}) == if TimedOut(s.clients[k], clock(k)) then gone + {k} else gone
  {
    hide TimedOut;
  }

  lemma EvictedClients(s: Server, gone: set<int>)
    ensures Evict(s, gone).clients == s.clients - gone
  {
  }

  lemma MinExists(keys: set<int>) returns (m: int)
    requires keys != {}
    ensures m in keys && forall k :: k in keys ==> m <= k
  {
    SomeMember(keys);
    var x :| x in keys;
    if keys == {x} {
      m := x;
    } else {
      assert keys == (keys - {x}) + {x};
      var n := MinExists(keys - {x});
      m := if x < n then x else n;
    }
  }

  // ---------------------------------------------------------------- the class

  class ServerProcess {
    const db: Database
    const protocol: Protocol
    var clients: map<int, ClientHandler>
    var open: set<int>
    var listenSocket: int
    var running: bool
    var sent: seq<Packet>

    ghost predicate Valid()
      reads this, clients.Values
    {
      (forall k :: k in clients ==> clients[k].socket == k && clients[k].db == db)
      && INVALID_SOCKET !in open
    }

    ghost function Handlers(): map<int, Handler>
      reads this, clients.Values
    {
      map k | k in clients :: clients[k].View()
    }

    ghost function View(): Server
      reads this, db, clients.Values
    {
      Server(db.View(), Handlers(), open, listenSocket, running, sent)
    }

    /** `initialize` has created the listen socket; `run` enters the main loop. */
    constructor (db: Database, listenSocket: int)
      requires listenSocket != INVALID_SOCKET && db.View() == InitialDb(db.hash)
      ensures Valid() && this.db == db && clients == map[]
      ensures View() == InitialServer(db.hash, listenSocket)
    {
      this.db := db;
      this.protocol := new Protocol();
      clients, open := map[], {listenSocket};
      this.listenSocket, running, sent := listenSocket, true, [];
      new;
      assert Handlers() == map[];
    }

    /** Closing the invalid descriptor, or one that is no longer open, does nothing. */
    method CloseSocket(socket: int)
      modifies this`open
      ensures open == if socket == INVALID_SOCKET then old(open) else old(open) - {socket}
    {
      if socket != INVALID_SOCKET {
        open := open - {socket};
      }
    }

    method SendMessage(socket: int, message: Message)
      modifies this`sent
      ensures sent == old(sent) + [Packet(socket, Serialize(message))]
    {
      sent := sent + [Packet(socket, Serialize(message))];
    }

    /** `socket` is what `accept` returned; the handler is made once the descriptor is non-blocking. */
    method HandleNewConnection(socket: int, nonBlocking: bool, now: int)
      requires Valid() && socket !in open
      modifies `clients, `open, db
      ensures Valid() && fresh(clients.Values - old(clients.Values))
      ensures View() == if socket == INVALID_SOCKET then old(View())
                        else Step(old(View()), Accept(socket, nonBlocking, now))
    {
      hide WithoutSessions, Departing;
      if socket == INVALID_SOCKET {
        return;
      }
      open := open + {socket};
      if !nonBlocking {
        CloseSocket(socket);
        assert open == old(open);
        return;
      }
      var handler := new ClientHandler(socket, db, now);
      if socket in clients {
        assert Handlers() == old(Handlers());
        DestroyHandler(socket);
      }
      clients := clients[socket := handler];
      assert Handlers() == old(Handlers())[socket := NewHandler(socket, now)];
    }

    /** The destructor of one handler, as seen from the whole server. */
    method DestroyHandler(socket: int)
      requires Valid() && socket in clients
      modifies db
      ensures db.View() == WithoutSessions(old(db.View()), Departing(old(Handlers()), {socket}))
    {
      ghost var names := Departing(Handlers(), {socket});
      var handler := clients[socket];
      handler.Destroy();
      if handler.authenticated {
        assert names == {handler.username};
        assert {} * old(db.View()).sessions.Keys == {};
        WithoutNoSessions(old(db.View()), {});
        WithoutOneMore(old(db.View()), {}, handler.username);
        assert {} + names == names;
      } else {
        assert names == {};
        WithoutNoSessions(old(db.View()), names);
      }
    }

    method HandleClientDisconnect(socket: int)
      requires Valid()
      modifies `clients, `open, db
      ensures Valid() && clients == old(clients) - {socket}
      ensures View() == Step(old(View()), Disconnect(socket))
    {
      hide WithoutSessions, Departing;
      CloseSocket(socket);
      assert Handlers() == old(Handlers());
      if socket in clients {
        DestroyHandler(socket);
      } else {
        NobodyDeparts(old(View()), {socket});
      }
      clients := clients - {socket};
      assert Handlers() == old(Handlers()) - {socket};
    }

    method ProcessMessage(socket: int, message: Message, now: int)
      requires Valid()
      modifies `sent, db, clients.Values
      ensures Valid() && clients == old(clients)
      ensures View() == Step(old(View()), Process(socket, message, now))
    {
      hide Handle, Serialize;
      if socket !in clients {
        return;
      }
      var handler := clients[socket];
      var response := handler.ProcessMessage(message, now);
      SendMessage(socket, response);
      assert forall k :: k in clients && k != socket ==> clients[k].View() == old(clients[k].View());
      assert Handlers() == old(Handlers())[socket := handler.View()];
    }

    /** One receive: a fresh buffer, and whatever stays in it is dropped. */
    method HandleClientData(socket: int, input: Input)
      requires Valid() && input.pollIn
      modifies `clients, `open, `sent, db, clients.Values
      ensures Valid() && (clients == old(clients) || clients == old(clients) - {socket})
      ensures View() == Run(old(View()), DataEvents(socket, input))
    {
      hide Messages, Step;
      if input.received == "" {
        HandleClientDisconnect(socket);
        RunOne(old(View()), Disconnect(socket));
        return;
      }
      var tempBuffer := new ByteBuffer();
      tempBuffer.data := input.received;
      var messages := protocol.ExtractMessages(tempBuffer);
      ghost var events := ProcessAll(socket, messages, input.clock);
      assert Handlers() == old(Handlers()) && events[..0] == [];
      for i := 0 to |messages|
        invariant Valid() && clients == old(clients)
        invariant View() == Run(old(View()), events[..i])
      {
        RunNext(old(View()), events, i);
        ProcessMessage(socket, messages[i], input.clock(i));
      }
      assert events[..|messages|] == events;
    }

    method HandleEntry(socket: int, input: Input)
      requires Valid()
      modifies `clients, `open, `sent, db, clients.Values
      ensures Valid() && (clients == old(clients) || clients == old(clients) - {socket})
      ensures View() == Run(old(View()), ClientEvents(socket, input))
    {
      hide Step;
      ghost var data := DataEvents(socket, input);
      if input.pollIn {
        HandleClientData(socket, input);
      }
      if input.hangUp {
        ghost var before := View();
        HandleClientDisconnect(socket);
        RunOne(before, Disconnect(socket));
        RunConcat(old(View()), data, [Disconnect(socket)]);
      } else {
        assert data + [] == data;
      }
    }

    /** The timeout sweep, in whatever order the map is walked. */
    method SweepTimeouts(clock: int -> int)
      requires Valid()
      modifies `clients, `open, db
      ensures Valid() && clients.Values <= old(clients.Values)
      ensures View() == Step(old(View()), Sweep(clock))
    {
      hide Evict, TimedOut, Late, Step;
      ghost var start := View();
      var pending := clients.Keys;
      ghost var gone: set<int> := {};
      EvictNobody(start);
      LateAreClients(start, clock);
      while pending != {}
        invariant Valid() && pending <= start.clients.Keys && clients.Values <= old(clients.Values)
        invariant gone == Late(start, clock) - pending
        invariant View() == Evict(start, gone)
        decreases |pending|
      {
        SomeMember(pending);
        var k :| k in pending;
        LateStep(start, clock, pending, k);
        var timedOut := SweepOne(k, clock, start, gone);
        pending := pending - {k};
        gone := if timedOut then gone + {k} else gone;
      }
      SweepStep(start, clock);
    }

    method SweepOne(k: int, clock: int -> int, ghost start: Server, ghost gone: set<int>) returns (timedOut: bool)
      requires Valid() && k in start.clients && k !in gone && View() == Evict(start, gone)
      modifies `clients, `open, db
      ensures Valid() && clients.Values <= old(clients.Values) && timedOut == TimedOut(start.clients[k], clock(k))
      ensures View() == Evict(start, if timedOut then gone + {k} else gone)
    {
      hide Evict;
      EvictedClients(start, gone);
      assert k in Handlers() && Handlers()[k] == start.clients[k];
      timedOut := clients[k].IsTimedOut(clock(k), TIMEOUT_SECONDS);
      if timedOut {
        HandleClientDisconnect(k);
        DisconnectStep(Evict(start, gone), k);
        EvictMore(start, gone, {k});
      }
    }

    /** Close everything, then destroy every handler, then close the listen socket. */
    method StopServer()
      requires Valid()
      modifies this, db
      ensures Valid() && View() == Step(old(View()), Stop)
    {
      hide Departing, WithoutSessions;
      if !running {
        return;
      }
      running := false;
      ghost var start := old(View());
      assert start.clients.Keys == clients.Keys;
      CloseAllClients();
      assert Handlers() == start.clients;
      DestroyAll();
      clients := map[];
      assert Handlers() == start.clients - start.clients.Keys;
      CloseSocket(listenSocket);
      assert open == (start.open - start.clients.Keys) - {start.listenSocket};
      listenSocket := INVALID_SOCKET;
    }

    method CloseAllClients()
      requires Valid()
      modifies `open
      ensures open == old(open) - clients.Keys
    {
      var pending := clients.Keys;
      while pending != {}
        invariant pending <= clients.Keys && open == old(open) - (clients.Keys - pending)
        decreases |pending|
      {
        SomeMember(pending);
        var k :| k in pending;
        CloseSocket(k);
        pending := pending - {k};
      }
    }

    /** `clients_.clear()` runs every destructor. */
    method DestroyAll()
      requires Valid()
      modifies db
      ensures db.View() == WithoutSessions(old(db.View()), Departing(old(Handlers()), clients.Keys))
    {
      hide Departing, WithoutSessions;
      ghost var handlers := Handlers();
      ghost var gone: set<int> := {};
      var pending := clients.Keys;
      NobodyDeparts(View(), {});
      while pending != {}
        invariant pending <= clients.Keys && gone == clients.Keys - pending && Handlers() == handlers
        invariant db.View() == WithoutSessions(old(db.View()), Departing(handlers, gone))
        decreases |pending|
      {
        SomeMember(pending);
        var k :| k in pending;
        DestroyHandler(k);
        DepartMore(old(db.View()), handlers, gone, k);
        gone := gone + {k};
        pending := pending - {k};
      }
      assert gone == clients.Keys;
    }

    method BuildPollList() returns (pollFds: seq<int>)
      requires Valid()
      ensures IsPollList(View(), pollFds)
    {
      pollFds := [listenSocket];
      var pending := clients.Keys;
      while pending != {}
        invariant pending <= clients.Keys && pollFds != [] && pollFds[0] == listenSocket
        invariant forall k :: k in pollFds[1..] <==> k in clients.Keys - pending
        invariant forall i, j :: 1 <= i < j < |pollFds| ==> pollFds[i] < pollFds[j]
        invariant forall i, k :: 1 <= i < |pollFds| && k in pending ==> pollFds[i] < k
        decreases |pending|
      {
        ghost var m := MinExists(pending);
        var k :| k in pending && forall j :: j in pending ==> k <= j;
        assert (pollFds + [k])[1..] == pollFds[1..] + [k];
        pollFds := pollFds + [k];
        pending := pending - {k};
      }
    }

    /** One iteration of the main loop after a successful `poll`. */
    method PollRound(incoming: Incoming, inputs: map<int, Input>, clock: int -> int)
      returns (ghost pollFds: seq<int>)
      requires Valid() && DescriptorsOk(View())
      requires incoming.Connection? ==> incoming.socket !in open
      modifies `clients, `open, `sent, db, clients.Values
      ensures Valid() && IsPollList(old(View()), pollFds)
      ensures View() == Run(old(View()), ListEvents(old(View()), pollFds, incoming, inputs) + [Sweep(clock)])
    {
      hide Step, ClientEvents, Handle;
      ghost var start := View();
      var fds := BuildPollList();
      pollFds := fds;
      assert fds[..0] == [];
      for i := 0 to |fds|
        invariant Valid()
        invariant fresh(clients.Values - old(clients.Values))
        invariant i == 0 ==> View() == start
        invariant View() == Run(start, ListEvents(start, fds[..i], incoming, inputs))
      {
        ghost var before := View();
        ghost var events := EntryEvents(start, fds[i], incoming, inputs);
        assert fds[..i + 1][..i] == fds[..i];
        RunConcat(start, ListEvents(start, fds[..i], incoming, inputs), events);
        if i > 0 {
          LaterEntryIsClient(start, fds, i);
        }
        if fds[i] == listenSocket {
          AcceptIncoming(incoming);
        } else if fds[i] in inputs {
          HandleEntry(fds[i], inputs[fds[i]]);
        }
        assert View() == Run(before, events);
      }
      assert fds[..|fds|] == fds;
      ghost var events := ListEvents(start, fds, incoming, inputs);
      SweepTimeouts(clock);
      RunOne(Run(start, events), Sweep(clock));
      RunConcat(start, events, [Sweep(clock)]);
    }

    method AcceptIncoming(incoming: Incoming)
      requires Valid() && (incoming.Connection? ==> incoming.socket !in open)
      modifies `clients, `open, db
      ensures Valid() && fresh(clients.Values - old(clients.Values))
      ensures View() == Run(old(View()), IncomingEvents(incoming))
    {
      hide Step;
      if incoming.Connection? {
        HandleNewConnection(incoming.socket, incoming.nonBlocking, incoming.now);
        RunOne(old(View()), Accept(incoming.socket, incoming.nonBlocking, incoming.now));
      }
    }
  }
}
