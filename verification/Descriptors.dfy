/** Descriptors and timeouts: who is connected, over single poll rounds and over whole runs. */
module Descriptors {
  import opened CommonUtils
  import opened MessageStructs
  import opened ProtocolStream
  import opened Storage
  import opened Handling
  import opened ServerCore

  /** The OS hands out only descriptors that are not open; the loop disconnects clients, never the listen socket. */
  predicate Possible(s: Server, e: Event) {
    (e.Accept? ==> e.socket !in s.open && e.socket != INVALID_SOCKET)
    && (e.Disconnect? ==> e.socket != s.listenSocket)
  }

  predicate PossibleRun(s: Server, events: seq<Event>)
    decreases |events|
  {
    events == [] || (PossibleRun(s, events[..|events| - 1])
                     && Possible(Run(s, events[..|events| - 1]), events[|events| - 1]))
  }

  lemma StepDescriptors(s: Server, e: Event)
    requires DescriptorsOk(s) && Possible(s, e)
    ensures DescriptorsOk(Step(s, e))
  {
    hide Handle, Departing, WithoutSessions, TimedOut, Serialize;
    assert e.Process? ==> Step(s, e).clients.Keys == s.clients.Keys;
  }

  /** In every possible run the open descriptors are the listen socket and the clients, and nothing else. */
  lemma {:induction false} RunDescriptors(s: Server, events: seq<Event>)
    requires DescriptorsOk(s) && PossibleRun(s, events)
    ensures DescriptorsOk(Run(s, events))
    decreases |events|
  {
    hide Step, DescriptorsOk, Possible;
    if events != [] {
      RunDescriptors(s, events[..|events| - 1]);
      StepDescriptors(Run(s, events[..|events| - 1]), events[|events| - 1]);
    }
  }

  /** A new connection is a guest; if its descriptor had a handler, that one's session has ended. */
  lemma FreshConnection(s: Server, socket: int, now: int)
    ensures var t := Step(s, Accept(socket, true, now));
            t.clients == s.clients[socket := Handler(socket, false, "", 1, 1, now)] && t.open == s.open + {socket}
            && t.db.users == s.db.users && t.sent == s.sent
            && (socket in s.clients && s.clients[socket].authenticated ==>
                  s.clients[socket].username !in t.db.sessions)
    ensures Step(s, Accept(socket, false, now)) == s
  {
  }

  /** A message for a connection that is gone changes nothing and is not answered. */
  lemma UnknownClientIgnored(s: Server, socket: int, m: Message, now: int)
    requires socket !in s.clients
    ensures Step(s, Process(socket, m, now)) == s
  {
  }

  /** After `stop` nothing is open, the listen socket is gone, and a second `stop` changes nothing. */
  lemma StopClosesEverything(s: Server)
    requires DescriptorsOk(s) && s.running
    ensures var t := Step(s, Stop);
            t.open == {} && t.clients == map[] && t.listenSocket == INVALID_SOCKET && !t.running && Step(t, Stop) == t
  {
    hide Departing, WithoutSessions;
    assert s.clients - s.clients.Keys == map[];
    assert (s.open - s.clients.Keys) - {s.listenSocket} == {};
  }

  lemma InitialDescriptors(hash: string -> string, listenSocket: int)
    requires listenSocket != INVALID_SOCKET
    ensures DescriptorsOk(InitialServer(hash, listenSocket))
  {
  }

  // ---------------------------------------------------------------- one poll round

  /** The clients that the reports of `poll` and `recv` make the loop close. */
  predicate Hung(input: Input) {
    (input.pollIn && input.received == "") || input.hangUp
  }

  function Dropped(fds: seq<int>, inputs: map<int, Input>): set<int> {
    set k | k in fds && k in inputs && Hung(inputs[k])
  }

  function Accepted(incoming: Incoming): set<int> {
    if incoming.Connection? && incoming.socket != INVALID_SOCKET && incoming.nonBlocking then {incoming.socket} else {}
  }

  /** Messages change neither who is connected nor what is open. */
  lemma {:induction false} ProcessingKeepsClients(s: Server, socket: int, messages: seq<Message>,
                                                         clock: nat -> int, n: nat)
    requires n <= |messages|
    ensures var t := Run(s, ProcessAll(socket, messages, clock)[..n]);
            t.clients.Keys == s.clients.Keys && t.open == s.open && t.listenSocket == s.listenSocket
  {
    hide Handle, Serialize;
    if n > 0 {
      ProcessingKeepsClients(s, socket, messages, clock, n - 1);
      RunNext(s, ProcessAll(socket, messages, clock), n - 1);
    }
  }

  /** The state after one client entry, however many times it is closed. */
  lemma EntryClients(s: Server, socket: int, input: Input)
    ensures var t := Run(s, ClientEvents(socket, input));
            t.clients.Keys == (if Hung(input) then s.clients.Keys - {socket} else s.clients.Keys)
            && t.open == (if Hung(input) then s.open - {socket} else s.open)
            && t.listenSocket == s.listenSocket
  {
    hide Messages, Handle, Serialize, WithoutSessions, Departing;
    DataClients(s, socket, input);
    var data := DataEvents(socket, input);
    if input.hangUp {
      RunConcat(s, data, [Disconnect(socket)]);
      RunOne(Run(s, data), Disconnect(socket));
    } else {
      assert data + [] == data;
    }
  }

  lemma DataClients(s: Server, socket: int, input: Input)
    ensures var t := Run(s, DataEvents(socket, input));
            var closes := input.pollIn && input.received == "";
            t.clients.Keys == (if closes then s.clients.Keys - {socket} else s.clients.Keys)
            && t.open == (if closes then s.open - {socket} else s.open)
            && t.listenSocket == s.listenSocket
  {
    hide Messages, Handle, Serialize, WithoutSessions, Departing;
    if input.pollIn && input.received != "" {
      var ms := Messages(input.received);
      ProcessingKeepsClients(s, socket, ms, input.clock, |ms|);
      assert ProcessAll(socket, ms, input.clock)[..|ms|] == ProcessAll(socket, ms, input.clock);
    } else if input.pollIn {
      RunOne(s, Disconnect(socket));
    }
  }

  lemma IncomingClients(s: Server, incoming: Incoming)
    ensures var t := Run(s, IncomingEvents(incoming));
            t.clients.Keys == s.clients.Keys + Accepted(incoming) && t.open == s.open + Accepted(incoming)
            && t.listenSocket == s.listenSocket
  {
    hide WithoutSessions, Departing;
    if incoming.Connection? && incoming.socket != INVALID_SOCKET {
      RunOne(s, Accept(incoming.socket, incoming.nonBlocking, incoming.now));
    }
  }

  lemma DroppedMore(fds: seq<int>, n: nat, inputs: map<int, Input>)
    requires 1 < n <= |fds|
    ensures Dropped(fds[1..n], inputs)
         == Dropped(fds[1..n - 1], inputs)
            + (if fds[n - 1] in inputs && Hung(inputs[fds[n - 1]]) then {fds[n - 1]} else {})
  {
    hide Hung;
    assert fds[1..n] == fds[1..n - 1] + [fds[n - 1]];
  }

  /** The poll list names no descriptor that is still to be accepted. */
  lemma ListedIsOpen(s: Server, fds: seq<int>, n: nat, inputs: map<int, Input>)
    requires DescriptorsOk(s) && IsPollList(s, fds) && 0 < n <= |fds|
    ensures Dropped(fds[1..n], inputs) <= s.clients.Keys <= s.open
  {
    hide Hung;
    forall k | k in fds[1..n] ensures k in s.clients {
      var i :| 0 <= i < |fds[1..n]| && fds[1..n][i] == k;
      LaterEntryIsClient(s, fds, i + 1);
    }
  }

  lemma OneMoreDropped(all: set<int>, dropped: set<int>, one: set<int>, accepted: set<int>)
    requires one !! accepted
    ensures ((all - dropped) + accepted) - one == (all - (dropped + one)) + accepted
  {
  }

  lemma AcceptedIsNew(s: Server, incoming: Incoming)
    requires incoming.Connection? ==> incoming.socket !in s.open
    ensures Accepted(incoming) !! s.open
  {
  }

  /** After the first `n` entries of the poll list: exactly the hung clients so far are gone, the new one is there. */
  lemma {:induction false} RoundPrefix(s: Server, fds: seq<int>, incoming: Incoming, inputs: map<int, Input>, n: nat)
    requires DescriptorsOk(s) && IsPollList(s, fds) && 0 < n <= |fds|
    requires incoming.Connection? ==> incoming.socket !in s.open
    ensures var t := Run(s, ListEvents(s, fds[..n], incoming, inputs));
            t.clients.Keys == (s.clients.Keys - Dropped(fds[1..n], inputs)) + Accepted(incoming)
            && t.open == (s.open - Dropped(fds[1..n], inputs)) + Accepted(incoming)
            && t.listenSocket == s.listenSocket
  {
    hide Step, ClientEvents, IncomingEvents, Hung, Run, Dropped, Accepted;
    var events := ListEvents(s, fds[..n - 1], incoming, inputs);
    var more := EntryEvents(s, fds[n - 1], incoming, inputs);
    assert fds[..n][..n - 1] == fds[..n - 1];
    assert ListEvents(s, fds[..n], incoming, inputs) == events + more;
    RunConcat(s, events, more);
    if n == 1 {
      NoneDropped(fds, inputs);
      RunNothing(s);
      IncomingClients(s, incoming);
    } else {
      var k := fds[n - 1];
      var t := Run(s, events);
      RoundPrefix(s, fds, incoming, inputs, n - 1);
      LaterEntryIsClient(s, fds, n - 1);
      DroppedMore(fds, n, inputs);
      var one := if k in inputs && Hung(inputs[k]) then {k} else {};
      EntryOf(t, s, k, incoming, inputs);
      AcceptedIsNew(s, incoming);
      OneMoreDropped(s.clients.Keys, Dropped(fds[1..n - 1], inputs), one, Accepted(incoming));
      OneMoreDropped(s.open, Dropped(fds[1..n - 1], inputs), one, Accepted(incoming));
    }
  }

  lemma RunNothing(s: Server)
    ensures Run(s, []) == s
  {
  }

  lemma NoneDropped(fds: seq<int>, inputs: map<int, Input>)
    requires fds != []
    ensures Dropped(fds[1..1], inputs) == {}
  {
  }

  lemma EntryOf(t: Server, s: Server, k: int, incoming: Incoming, inputs: map<int, Input>)
    requires k != s.listenSocket
    ensures var one := if k in inputs && Hung(inputs[k]) then {k} else {};
            var after := Run(t, EntryEvents(s, k, incoming, inputs));
            after.clients.Keys == t.clients.Keys - one && after.open == t.open - one
            && after.listenSocket == t.listenSocket
  {
    hide Step, ClientEvents, Hung;
    if k in inputs {
      EntryClients(t, k, inputs[k]);
    }
  }

  lemma SurvivorsOf(s: Server, fds: seq<int>, inputs: map<int, Input>)
    requires IsPollList(s, fds)
    ensures s.clients.Keys - Dropped(fds[1..], inputs) == set k | k in s.clients && !(k in inputs && Hung(inputs[k]))
  {
    hide Hung;
    var listed := fds[1..];
    assert forall k: int :: k in s.clients ==> k in listed;
    assert forall k: int :: k in s.clients ==> (k in Dropped(listed, inputs) <==> k in inputs && Hung(inputs[k]));
  }

  /**
    One round of the loop before its sweep.  All accepts come before all closes, so the new connection survives,
    even when a client is closed twice; and again the open descriptors are the listen socket and the clients.
   */
  lemma RoundSurvivors(s: Server, fds: seq<int>, incoming: Incoming, inputs: map<int, Input>)
    requires DescriptorsOk(s) && IsPollList(s, fds)
    requires incoming.Connection? ==> incoming.socket !in s.open
    ensures var t := Run(s, ListEvents(s, fds, incoming, inputs));
            DescriptorsOk(t)
            && t.clients.Keys
            == (set k | k in s.clients && !(k in inputs && Hung(inputs[k]))) + Accepted(incoming)
  {
    hide Step, Hung, Run, Dropped, ListEvents;
    RoundPrefix(s, fds, incoming, inputs, |fds|);
    ListedIsOpen(s, fds, |fds|, inputs);
    SurvivorsOf(s, fds, inputs);
    assert fds[..|fds|] == fds && fds[1..|fds|] == fds[1..];
  }

  /** A whole iteration, sweep included, restores "clients and listen socket = open descriptors". */
  lemma RoundRestoresDescriptors(s: Server, fds: seq<int>, incoming: Incoming, inputs: map<int, Input>,
                                 clock: int -> int)
    requires DescriptorsOk(s) && IsPollList(s, fds)
    requires incoming.Connection? ==> incoming.socket !in s.open
    ensures DescriptorsOk(Run(s, ListEvents(s, fds, incoming, inputs) + [Sweep(clock)]))
  {
    hide Step, Hung, Run, ListEvents, DescriptorsOk;
    var events := ListEvents(s, fds, incoming, inputs);
    RoundSurvivors(s, fds, incoming, inputs);
    RunConcat(s, events, [Sweep(clock)]);
    RunOne(Run(s, events), Sweep(clock));
    StepDescriptors(Run(s, events), Sweep(clock));
  }

  // ---------------------------------------------------------------- timeouts

  /** When the connection now using `socket` was accepted or last had a message processed, in a run from no clients. */
  function LastSeen(events: seq<Event>, socket: int): int
    decreases |events|
  {
    if events == [] then 0
    else
      var e := events[|events| - 1];
      if (e.Process? && e.socket == socket) || (e.Accept? && e.nonBlocking && e.socket == socket) then e.now
      else LastSeen(events[..|events| - 1], socket)
  }

  lemma HandleActivity(db: Db, h: Handler, m: Message, now: int)
    ensures Handle(db, h, m, now).handler.lastActivity == now
  {
    hide NewMessage, Error, Answer, LoginText;
  }

  lemma {:induction false} ActivityIsLastSeen(s: Server, events: seq<Event>, socket: int)
    requires s.clients == map[] && socket in Run(s, events).clients
    ensures Run(s, events).clients[socket].lastActivity == LastSeen(events, socket)
    decreases |events|
  {
    hide Handle, WithoutSessions, Departing, TimedOut, Serialize;
    if events != [] {
      var before, e := events[..|events| - 1], events[|events| - 1];
      if socket in Run(s, before).clients {
        ActivityIsLastSeen(s, before, socket);
        if e.Process? {
          HandleActivity(Run(s, before).db, Run(s, before).clients[socket], e.message, e.now);
        }
      }
    }
  }

  /** The sweep removes a client exactly when it was last seen at least 301 seconds before its clock reading. */
  lemma SweepExactly(s: Server, events: seq<Event>, clock: int -> int, socket: int)
    requires s.clients == map[] && socket in Run(s, events).clients
    ensures socket in Step(Run(s, events), Sweep(clock)).clients
       <==> clock(socket) - LastSeen(events, socket) < 301 * SECOND
  {
    hide Run, LastSeen, TimedOut, Departing, WithoutSessions;
    ActivityIsLastSeen(s, events, socket);
    TimedOutExactly(Run(s, events).clients[socket], clock(socket));
  }

  /** The steady clock's reading that an event takes for this connection. */
  function Reading(e: Event, socket: int): Option<int> {
    match e
    case Accept(_, _, now) => Some(now)
    case Process(_, _, now) => Some(now)
    case Sweep(clock) => Some(clock(socket))
    case Disconnect(_) => None
    case Stop => None
  }

  /** The steady clock never runs backwards. */
  ghost predicate MonotoneClock(events: seq<Event>, socket: int) {
    forall i, j :: 0 <= i < j < |events| && Reading(events[i], socket).Some? && Reading(events[j], socket).Some? ==>
      Reading(events[i], socket).value <= Reading(events[j], socket).value
  }

  predicate Talks(e: Event, socket: int) {
    e.Process? && e.socket == socket
  }

  /** From `from` to `last`, each message comes at most 300 seconds after the previous one, or after the accept. */
  predicate Steady(events: seq<Event>, socket: int, from: nat, last: nat)
    requires last < |events|
  {
    forall j :: from <= j <= last && Talks(events[j], socket) ==>
      events[j].now - LastSeen(events[..j], socket) <= 300 * SECOND
  }

  /** From `from` to `last` it is one connection: nobody else closes it, and its descriptor is not handed out anew. */
  predicate OneConnection(events: seq<Event>, socket: int, from: nat, last: nat)
    requires last < |events|
  {
    forall i :: from <= i < last ==>
      events[i] != Disconnect(socket) && events[i] != Stop && !(events[i].Accept? && events[i].socket == socket)
  }

  lemma NextMessage(events: seq<Event>, socket: int, n: nat, last: nat) returns (j: nat)
    requires n <= last < |events| && Talks(events[last], socket)
    ensures n <= j <= last && Talks(events[j], socket) && forall i :: n <= i < j ==> !Talks(events[i], socket)
    decreases last - n
  {
    if Talks(events[n], socket) {
      j := n;
    } else {
      j := NextMessage(events, socket, n + 1, last);
    }
  }

  /** Without a message or an accept, the time of the last one stays. */
  lemma {:induction false} LastSeenStays(events: seq<Event>, socket: int, i: nat, j: nat)
    requires i <= j <= |events|
    requires forall k :: i <= k < j ==> !Talks(events[k], socket) && !(events[k].Accept? && events[k].socket == socket)
    ensures LastSeen(events[..j], socket) == LastSeen(events[..i], socket)
    decreases j
  {
    if i < j {
      LastSeenStays(events, socket, i, j - 1);
      assert events[..j][..j - 1] == events[..j - 1];
      assert events[..j][j - 1] == events[j - 1];
    }
  }

  /** Sweeping at `n`: the next message comes within 300 seconds, and the clock has not run backwards until then. */
  lemma SweptInTime(events: seq<Event>, socket: int, from: nat, n: nat, last: nat)
    requires from <= n < last < |events| && events[n].Sweep? && Talks(events[last], socket)
    requires MonotoneClock(events, socket)
    requires Steady(events, socket, from, last) && OneConnection(events, socket, from, last)
    ensures events[n].clock(socket) - LastSeen(events[..n], socket) <= 300 * SECOND
  {
    hide LastSeen;
    var j := NextMessage(events, socket, n + 1, last);
    LastSeenStays(events, socket, n, j);
    assert Reading(events[n], socket) == Some(events[n].clock(socket));
    assert Reading(events[j], socket) == Some(events[j].now);
  }

  /**
    A connected client whose messages are processed at most 300 seconds apart, by a clock that never runs backwards, is
    not swept: it is there at every point of the run up to its last message.
   */
  lemma {:induction false} TalkingClientStays(s: Server, events: seq<Event>, socket: int, from: nat, n: nat, last: nat)
    requires s.clients == map[] && from <= n <= last < |events| && Talks(events[last], socket)
    requires socket in Run(s, events[..from]).clients
    requires MonotoneClock(events, socket)
    requires Steady(events, socket, from, last) && OneConnection(events, socket, from, last)
    ensures socket in Run(s, events[..n]).clients
    decreases n
  {
    hide LastSeen, TimedOut, Departing, WithoutSessions, Handle, Serialize, Run, MonotoneClock, Steady;
    if from < n {
      TalkingClientStays(s, events, socket, from, n - 1, last);
      RunNext(s, events, n - 1);
      if events[n - 1].Sweep? {
        SweptInTime(events, socket, from, n - 1, last);
        SweepExactly(s, events[..n - 1], events[n - 1].clock, socket);
      }
    }
  }
}
