/** In which order things happen within one receive, one poll entry and one poll round, as the clients see it. */
module Ordering {
  import opened CommonUtils
  import opened MessageStructs
  import opened Framing
  import opened ProtocolStream
  import opened Storage
  import opened Handling
  import opened ServerCore
  import opened ServerRuns

  // ---------------------------------------------------------------- one receive

  /** Messages received one after the other, each handled in the state that the ones before it have left. */
  function ReceiveAll(s: Server, socket: int, ms: seq<Message>, clock: nat -> int): Server
    decreases |ms|
  {
    if ms == [] then s
    else
      var n := |ms| - 1;
      Receive(ReceiveAll(s, socket, ms[..n], clock), socket, ms[n], clock(n))
  }

  lemma {:induction false} ProcessedInOrder(s: Server, socket: int, ms: seq<Message>, clock: nat -> int, n: nat)
    requires n <= |ms|
    ensures Run(s, ProcessAll(socket, ms, clock)[..n]) == ReceiveAll(s, socket, ms[..n], clock)
  {
    hide Receive;
    if n > 0 {
      ProcessedInOrder(s, socket, ms, clock, n - 1);
      RunNext(s, ProcessAll(socket, ms, clock), n - 1);
      assert ms[..n][..n - 1] == ms[..n - 1] && ms[..n][n - 1] == ms[n - 1];
    }
  }

  /** Whatever bytes arrive in one receive, their messages are handled in the order in which they stand there. */
  lemma OneReceiveInOrder(s: Server, socket: int, input: Input)
    requires input.pollIn && input.received != ""
    ensures Run(s, DataEvents(socket, input)) == ReceiveAll(s, socket, Messages(input.received), input.clock)
  {
    hide Messages, Step, Run, ReceiveAll;
    var ms := Messages(input.received);
    ProcessedInOrder(s, socket, ms, input.clock, |ms|);
    assert ms[..|ms|] == ms;
    assert ProcessAll(socket, ms, input.clock)[..|ms|] == ProcessAll(socket, ms, input.clock);
  }

  /** So a receive of several deliverable requests is the receive of all but the last, and then the last one. */
  lemma LastRequestIsLast(s: Server, socket: int, ms: seq<Message>, m: Message, clock: nat -> int)
    requires AllDeliverable(ms) && ms != [] && Deliverable(m)
    ensures Run(s, DataEvents(socket, Input(true, false, Encode(ms + [m]), clock)))
         == Receive(Run(s, DataEvents(socket, Input(true, false, Encode(ms), clock))), socket, m, clock(|ms|))
  {
    hide Messages, Deliverable, DataEvents, Run, Receive, Encode;
    StreamOfDeliverables(ms);
    StreamOfDeliverables(ms + [m]);
    OneReceiveInOrder(s, socket, Input(true, false, Encode(ms), clock));
    OneReceiveInOrder(s, socket, Input(true, false, Encode(ms + [m]), clock));
    assert (ms + [m])[..|ms|] == ms;
  }

  lemma StreamOfDeliverables(ms: seq<Message>)
    requires AllDeliverable(ms)
    ensures Messages(Encode(ms)) == ms && (ms != [] ==> Encode(ms) != "")
  {
    hide LineMessages;
    RelayKeepsDeliverable(ms);
    KeptAll(ms);
  }

  lemma {:induction false} ClientStays(s: Server, socket: int, ms: seq<Message>, clock: nat -> int)
    ensures ReceiveAll(s, socket, ms, clock).clients.Keys == s.clients.Keys
    decreases |ms|
  {
    hide Handle, Serialize;
    if ms != [] {
      ClientStays(s, socket, ms[..|ms| - 1], clock);
    }
  }

  /** What the handler answers to each of several requests, in the state in which it gets its turn. */
  function RepliesTo(s: Server, socket: int, ms: seq<Message>, clock: nat -> int): (replies: seq<Message>)
    requires socket in s.clients
    ensures |replies| == |ms|
    decreases |ms|
  {
    if ms == [] then []
    else
      var n := |ms| - 1;
      var t := ReceiveAll(s, socket, ms[..n], clock);
      ClientStays(s, socket, ms[..n], clock);
      RepliesTo(s, socket, ms[..n], clock) + [ReplyTo(t, socket, ms[n], clock(n))]
  }

  function Packets(socket: int, replies: seq<Message>): seq<Packet> {
    seq(|replies|, (i: nat) requires i < |replies| => Packet(socket, Serialize(replies[i])))
  }

  lemma {:induction false} AnsweredInOrder(s: Server, socket: int, ms: seq<Message>, clock: nat -> int)
    requires socket in s.clients
    ensures ReceiveAll(s, socket, ms, clock).sent == s.sent + Packets(socket, RepliesTo(s, socket, ms, clock))
    decreases |ms|
  {
    hide Handle, Serialize;
    if ms != [] {
      var n := |ms| - 1;
      AnsweredInOrder(s, socket, ms[..n], clock);
      ClientStays(s, socket, ms[..n], clock);
      var t, before := ReceiveAll(s, socket, ms[..n], clock), RepliesTo(s, socket, ms[..n], clock);
      var reply := ReplyTo(t, socket, ms[n], clock(n));
      assert Packets(socket, before + [reply]) == Packets(socket, before) + [Packet(socket, Serialize(reply))];
      assert ReceiveAll(s, socket, ms, clock).sent == t.sent + [Packet(socket, Serialize(reply))];
    }
  }

  /** Several requests in one receive: what is sent to the connection are the replies to them, in their order. */
  lemma PipelinedRequests(s: Server, socket: int, ms: seq<Message>, clock: nat -> int)
    requires socket in s.clients && AllDeliverable(ms) && ms != []
    ensures var t := Run(s, DataEvents(socket, Input(true, false, Encode(ms), clock)));
            t == ReceiveAll(s, socket, ms, clock)
            && t.sent == s.sent + Packets(socket, RepliesTo(s, socket, ms, clock))
  {
    hide Messages, Deliverable, Encode, DataEvents, Run, ReceiveAll, RepliesTo, Packets;
    StreamOfDeliverables(ms);
    OneReceiveInOrder(s, socket, Input(true, false, Encode(ms), clock));
    AnsweredInOrder(s, socket, ms, clock);
  }

  // ---------------------------------------------------------------- one poll entry

  /** What was received is handled and answered before a hang-up reported with it is honoured. */
  lemma AnswersThenCloses(s: Server, socket: int, input: Input)
    requires input.pollIn && input.hangUp && input.received != ""
    ensures Run(s, ClientEvents(socket, input))
         == Evict(ReceiveAll(s, socket, Messages(input.received), input.clock), {socket})
  {
    hide Messages, Evict, ReceiveAll;
    OneReceiveInOrder(s, socket, input);
    RunConcat(s, DataEvents(socket, input), [Disconnect(socket)]);
    RunOne(Run(s, DataEvents(socket, input)), Disconnect(socket));
  }

  // ---------------------------------------------------------------- one poll round

  /** Nothing was taken back, and all that was added goes to descriptors from `lo` to `hi`, in ascending order. */
  ghost predicate SentInOrder(before: seq<Packet>, after: seq<Packet>, lo: int, hi: int) {
    before <= after
    && (forall i :: |before| <= i < |after| ==> lo <= after[i].socket <= hi)
    && forall i, j :: |before| <= i < j < |after| ==> after[i].socket <= after[j].socket
  }

  lemma OrderGoesOn(a: seq<Packet>, b: seq<Packet>, c: seq<Packet>, lo: int, mid: int, hi: int)
    requires SentInOrder(a, b, lo, mid) && SentInOrder(b, c, hi, hi) && lo <= mid <= hi
    ensures SentInOrder(a, c, lo, hi)
  {
    assert forall i :: |a| <= i < |b| ==> c[i] == b[i];
  }

  lemma {:induction false} ReceivesSend(s: Server, socket: int, ms: seq<Message>, clock: nat -> int)
    ensures SentInOrder(s.sent, ReceiveAll(s, socket, ms, clock).sent, socket, socket)
    decreases |ms|
  {
    hide Handle, Serialize;
    if ms != [] {
      ReceivesSend(s, socket, ms[..|ms| - 1], clock);
    }
  }

  lemma EntrySends(s: Server, socket: int, input: Input)
    ensures SentInOrder(s.sent, Run(s, ClientEvents(socket, input)).sent, socket, socket)
  {
    hide Messages, ReceiveAll, WithoutSessions, Departing, SentInOrder;
    var data := DataEvents(socket, input);
    if input.pollIn && input.received != "" {
      OneReceiveInOrder(s, socket, input);
      ReceivesSend(s, socket, Messages(input.received), input.clock);
    } else {
      QuietEntry(s, socket, input);
    }
    RunConcat(s, data, if input.hangUp then [Disconnect(socket)] else []);
    if input.hangUp {
      RunOne(Run(s, data), Disconnect(socket));
    }
  }

  lemma QuietEntry(s: Server, socket: int, input: Input)
    requires !input.pollIn || input.received == ""
    ensures SentInOrder(s.sent, Run(s, DataEvents(socket, input)).sent, socket, socket)
  {
    hide Messages, WithoutSessions, Departing;
    if input.pollIn {
      RunOne(s, Disconnect(socket));
    }
  }

  lemma AcceptSends(s: Server, incoming: Incoming)
    ensures Run(s, IncomingEvents(incoming)).sent == s.sent
  {
    hide WithoutSessions, Departing;
    if incoming.Connection? && incoming.socket != INVALID_SOCKET {
      RunOne(s, Accept(incoming.socket, incoming.nonBlocking, incoming.now));
    }
  }

  /** One round serves the clients in ascending order of their descriptors, and accepting sends nothing. */
  lemma {:induction false} RoundServesInOrder(s: Server, fds: seq<int>, incoming: Incoming, inputs: map<int, Input>,
                                               n: nat)
    requires IsPollList(s, fds) && s.listenSocket !in s.clients && 0 < n <= |fds|
    ensures var t := Run(s, ListEvents(s, fds[..n], incoming, inputs));
            if n == 1 then t.sent == s.sent else SentInOrder(s.sent, t.sent, fds[1], fds[n - 1])
  {
    hide Step, ClientEvents, IncomingEvents, Run, SentInOrder;
    var events := ListEvents(s, fds[..n - 1], incoming, inputs);
    var more := EntryEvents(s, fds[n - 1], incoming, inputs);
    assert fds[..n][..n - 1] == fds[..n - 1];
    RunConcat(s, events, more);
    NothingRuns(s);
    if n == 1 {
      AcceptSends(s, incoming);
    } else {
      var t := Run(s, events);
      RoundServesInOrder(s, fds, incoming, inputs, n - 1);
      LaterEntryIsClient(s, fds, n - 1);
      ServedEntry(t, s, fds[n - 1], incoming, inputs);
      if n > 2 {
        OrderGoesOn(s.sent, t.sent, Run(t, more).sent, fds[1], fds[n - 2], fds[n - 1]);
      }
    }
  }

  lemma NothingRuns(s: Server)
    ensures Run(s, []) == s
  {
  }

  lemma ServedEntry(t: Server, s: Server, k: int, incoming: Incoming, inputs: map<int, Input>)
    requires k != s.listenSocket
    ensures SentInOrder(t.sent, Run(t, EntryEvents(s, k, incoming, inputs)).sent, k, k)
  {
    hide Step, ClientEvents;
    if k in inputs {
      EntrySends(t, k, inputs[k]);
    } else {
      NothingRuns(t);
    }
  }
}
