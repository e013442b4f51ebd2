/** The client (src/client/Client.cpp): one request, then receive attempts until a message shows up. */
module ClientCore {
  import opened CommonUtils
  import opened Decimal
  import opened MessageStructs
  import opened Framing
  import opened ProtocolStream
  import opened PayloadParser

  const INTERNAL_ERROR: u16 := 8

  function ClientError(description: string): Message {
    NewMessage(ERROR_MESSAGE, ErrorText(INTERNAL_ERROR, description))
  }

  /** The client's own errors carry code 8. */
  lemma ClientErrorText(description: string)
    ensures ClientError(description) == NewMessage(ERROR_MESSAGE, "8|" + description)
  {
    assert DigitChar(8) == '8';
    assert ToString(8) + "|" == "8|";
  }

  /** What a waiting client ends with: the first message of the stream or none, and its buffer. */
  datatype Awaited<M> = Awaited(reply: Option<M>, buffer: string)

  /** Receive attempts until one completes a message; "" is an attempt that finds nothing. */
  function AwaitWith<M>(buffer: string, attempts: seq<string>, decode: string -> seq<M>): Awaited<M>
    decreases |attempts|
  {
    if attempts == [] then Awaited(None, buffer)
    else
      var b := buffer + attempts[0];
      var found := Extract(b, decode);
      if found != [] then Awaited(Some(found[0]), Leftover(b)) else AwaitWith(Leftover(b), attempts[1..], decode)
  }

  function Await(buffer: string, attempts: seq<string>): Awaited<Message> {
    AwaitWith(buffer, attempts, LineMessages)
  }

  class Client {
    const protocol: Protocol
    const receiveBuffer: ByteBuffer
    var connected: bool
    var sent: string

    constructor ()
      ensures !connected && receiveBuffer.data == "" && sent == "" && fresh(receiveBuffer)
    {
      protocol := new Protocol();
      receiveBuffer := new ByteBuffer();
      connected, sent := false, "";
    }

    /** `received` is what `recv` has for this attempt. */
    method ReceiveData(received: string) returns (got: bool)
      modifies receiveBuffer
      ensures got == (connected && received != "")
      ensures receiveBuffer.data == old(receiveBuffer.data) + (if connected then received else "")
    {
      if !connected {
        return false;
      }
      if received != "" {
        receiveBuffer.data := receiveBuffer.data + received;
        return true;
      }
      got := false;
    }

    method PollMessages(received: string) returns (messages: seq<Message>)
      modifies receiveBuffer
      ensures var all := old(receiveBuffer.data) + (if connected then received else "");
              messages == Messages(all) && receiveBuffer.data == Leftover(all)
    {
      var _ := ReceiveData(received);
      messages := protocol.ExtractMessages(receiveBuffer);
    }

    /**
      `attempts` are the receive attempts that the loop gets to make: after the last one more than ten seconds have
      passed.  Of several messages that arrive together the first is returned and the others are dropped.
     */
    method SendMessageSync(message: Message, sendOk: bool, attempts: seq<string>) returns (reply: Message)
      requires attempts != []
      modifies this`sent, receiveBuffer
      ensures !connected ==> reply == ClientError("Not connected") && receiveBuffer.data == old(receiveBuffer.data)
      ensures connected && !sendOk ==>
                reply == ClientError("Send failed") && receiveBuffer.data == old(receiveBuffer.data)
      ensures sent == old(sent) + (if connected && sendOk then Serialize(message) else "")
      ensures connected && sendOk ==>
                var a := Await(old(receiveBuffer.data), attempts);
                receiveBuffer.data == a.buffer
                && reply == if a.reply.Some? then a.reply.value else ClientError("Timeout")
    {
      hide LineMessages, ErrorText;
      if !connected {
        return ClientError("Not connected");
      }
      if !sendOk {
        return ClientError("Send failed");
      }
      sent := sent + Serialize(message);
      var i := 0;
      while true
        invariant 0 <= i < |attempts|
        invariant Await(receiveBuffer.data, attempts[i..]) == Await(old(receiveBuffer.data), attempts)
        modifies receiveBuffer
        decreases |attempts| - i
      {
        assert attempts[i..][1..] == attempts[i + 1..];
        var _ := ReceiveData(attempts[i]);
        var messages := protocol.ExtractMessages(receiveBuffer);
        if messages != [] {
          return messages[0];
        }
        i := i + 1;
        if i == |attempts| {
          assert attempts[i..] == [];
          assert Await(receiveBuffer.data, attempts[i..]) == Await(old(receiveBuffer.data), attempts);
          return ClientError("Timeout");
        }
      }
    }

    method GetLessonList(sendOk: bool, attempts: seq<string>) returns (lessons: seq<string>)
      requires attempts != []
      modifies this`sent, receiveBuffer
      ensures !connected || !sendOk ==> lessons == [] && receiveBuffer.data == old(receiveBuffer.data)
      ensures sent == old(sent) + (if connected && sendOk
                                   then Serialize(NewMessage(GET_LESSON_LIST_REQUEST, "")) else "")
      ensures connected && sendOk ==>
                var a := Await(old(receiveBuffer.data), attempts);
                lessons == ListOf(a.reply, GET_LESSON_LIST_RESPONSE) && receiveBuffer.data == a.buffer
    {
      hide Await, Split, ErrorText;
      var response := SendMessageSync(NewMessage(GET_LESSON_LIST_REQUEST, ""), sendOk, attempts);
      if response.kind == GET_LESSON_LIST_RESPONSE {
        lessons := SplitTokens(response.payload, ';');
      } else {
        lessons := [];
      }
    }

    method GetFeedback(sendOk: bool, attempts: seq<string>) returns (feedback: seq<string>)
      requires attempts != []
      modifies this`sent, receiveBuffer
      ensures !connected || !sendOk ==> feedback == [] && receiveBuffer.data == old(receiveBuffer.data)
      ensures sent == old(sent) + (if connected && sendOk
                                   then Serialize(NewMessage(GET_FEEDBACK_REQUEST, "")) else "")
      ensures connected && sendOk ==>
                var a := Await(old(receiveBuffer.data), attempts);
                feedback == ListOf(a.reply, GET_FEEDBACK_RESPONSE) && receiveBuffer.data == a.buffer
    {
      hide Await, Split, ErrorText;
      var response := SendMessageSync(NewMessage(GET_FEEDBACK_REQUEST, ""), sendOk, attempts);
      if response.kind == GET_FEEDBACK_RESPONSE {
        feedback := SplitTokens(response.payload, ';');
      } else {
        feedback := [];
      }
    }

    method Login(username: string, password: string, sendOk: bool, attempts: seq<string>)
      returns (result: LoginResult)
      requires attempts != []
      modifies this`sent, receiveBuffer
      ensures sent == old(sent) + (if connected && sendOk
                                   then Serialize(NewMessage(LOGIN_REQUEST, CreateLogin(username, password))) else "")
      ensures !connected || !sendOk ==> result == Refused && receiveBuffer.data == old(receiveBuffer.data)
      ensures connected && sendOk ==>
                var a := Await(old(receiveBuffer.data), attempts);
                result == LoginResultOf(username, a.reply) && receiveBuffer.data == a.buffer
    {
      hide Await, Split, ErrorText, Stoi;
      var request := NewMessage(LOGIN_REQUEST, CreateLogin(username, password));
      var response := SendMessageSync(request, sendOk, attempts);
      if response.kind != LOGIN_SUCCESS {
        return Refused;
      }
      var parts := SplitTokens(response.payload, '|');
      if |parts| < 3 {
        return LoggedIn(None);
      }
      var role := Stoi(parts[0]);
      if role == None {
        return Thrown;
      }
      var level := Stoi(parts[1]);
      if level == None {
        return Thrown;
      }
      var score := Stoi(parts[2]);
      if score == None {
        return Thrown;
      }
      result := LoggedIn(Some(Profile(username, role.value % 0x100, level.value % 0x100, score.value)));
    }
  }

  /** What `getLessonList` and `getFeedback` return for a reply, or for none. */
  function ListOf(reply: Option<Message>, kind: u16): seq<string> {
    if reply.Some? && reply.value.kind == kind then Split(reply.value.payload, ';') else []
  }

  datatype Profile = Profile(username: string, role: u8, level: u8, score: int)

  /** `Thrown`: `stoi` throws out of `login`. */
  datatype LoginResult = Refused | LoggedIn(profile: Option<Profile>) | Thrown

  function ProfileOf(username: string, parts: seq<string>): LoginResult {
    if |parts| < 3 then LoggedIn(None)
    else
      var role, level, score := Stoi(parts[0]), Stoi(parts[1]), Stoi(parts[2]);
      if role == None || level == None || score == None then Thrown
      else LoggedIn(Some(Profile(username, role.value % 0x100, level.value % 0x100, score.value)))
  }

  function LoginResultOf(username: string, reply: Option<Message>): LoginResult {
    if reply.Some? && reply.value.kind == LOGIN_SUCCESS then ProfileOf(username, Split(reply.value.payload, '|'))
    else Refused
  }

  // ---------------------------------------------------------------- fragmentation does not matter

  /** The reply is the first message of the whole stream, however it was cut; none means that there is none. */
  lemma {:induction false} AwaitFindsFirst<M>(buffer: string, attempts: seq<string>, decode: string -> seq<M>)
    requires '\n' !in buffer
    ensures var all := Extract(buffer + Concat(attempts), decode);
            AwaitWith(buffer, attempts, decode).reply == (if all == [] then None else Some(all[0]))
    ensures Extract(buffer + Concat(attempts), decode) == [] ==>
              AwaitWith(buffer, attempts, decode).buffer == Leftover(buffer + Concat(attempts))
    decreases |attempts|
  {
    if attempts == [] {
      assert buffer + "" == buffer;
      NoLine(buffer, decode);
    } else {
      var b := buffer + attempts[0];
      var rest := Concat(attempts[1..]);
      assert b + rest == buffer + Concat(attempts);
      ChunkingInvariance(b, rest, decode);
      RefinesLines(b, decode);
      AwaitFindsFirst(Leftover(b), attempts[1..], decode);
    }
  }

  /** A reply of one line is returned whole, and the buffer is empty again. */
  lemma {:induction false} AwaitOneLine<M>(buffer: string, attempts: seq<string>, line: string, m: M,
                                                  decode: string -> seq<M>)
    requires '\n' !in buffer && '\n' !in line && decode(line) == [m]
    requires buffer + Concat(attempts) == line + ['\n']
    ensures AwaitWith(buffer, attempts, decode) == Awaited(Some(m), "")
    decreases |attempts|
  {
    StreamGoesOn(buffer, Concat(attempts), line);
    if attempts != [] {
      var b := buffer + attempts[0];
      var rest := Concat(attempts[1..]);
      assert b + rest == line + ['\n'];
      if '\n' in b {
        NewlineEndsIt(b, rest, line);
        FirstLine(line, "", decode);
        NoLine("", decode);
        assert b == line + ['\n'] + "";
      } else {
        NoLine(b, decode);
        AwaitOneLine(b, attempts[1..], line, m, decode);
      }
    }
  }

  lemma NewlineEndsIt(b: string, rest: string, line: string)
    requires b + rest == line + ['\n'] && '\n' !in line && '\n' in b
    ensures rest == "" && b == line + ['\n']
  {
    var i :| 0 <= i < |b| && b[i] == '\n';
    assert (b + rest)[i] == '\n';
    forall j | 0 <= j < |line| ensures (line + ['\n'])[j] != '\n' {
      assert (line + ['\n'])[j] == line[j];
    }
    assert i == |line|;
  }

  lemma StreamGoesOn(buffer: string, rest: string, line: string)
    requires buffer + rest == line + ['\n'] && '\n' !in buffer
    ensures rest != ""
  {
    assert (line + ['\n'])[|line|] == '\n';
    assert '\n' in buffer + rest && buffer + "" == buffer;
  }

  /** A deliverable reply, in any fragments: the client returns it, and no byte stays behind. */
  lemma DeliveredReply(m: Message, attempts: seq<string>)
    requires Deliverable(m) && Concat(attempts) == Serialize(m)
    ensures Await("", attempts) == Awaited(Some(m), "")
  {
    hide LineMessages, Serialize, Frame;
    OneLineOf(m);
    assert "" + Concat(attempts) == Frame(m) + ['\n'];
    AwaitOneLine("", attempts, Frame(m), m, LineMessages);
  }

  // ---------------------------------------------------------------- what is lost

  /** How many attempts a call makes before it returns. */
  function Used<M>(buffer: string, attempts: seq<string>, decode: string -> seq<M>): (n: nat)
    ensures n <= |attempts|
    decreases |attempts|
  {
    if attempts == [] then 0
    else
      var b := buffer + attempts[0];
      if Extract(b, decode) != [] then 1 else 1 + Used(Leftover(b), attempts[1..], decode)
  }

  lemma {:induction false} ConcatSplit(parts: seq<string>, n: nat)
    requires n <= |parts|
    ensures Concat(parts) == Concat(parts[..n]) + Concat(parts[n..])
  {
    if n > 0 {
      ConcatSplit(parts[1..], n - 1);
      assert parts[..n][1..] == parts[1..][..n - 1] && parts[1..][n - 1..] == parts[n..];
      assert parts[0] + Concat(parts[1..][..n - 1]) == Concat(parts[..n]);
    }
  }

  /** A call stops at the first attempt that completes a message, and keeps what is left over then. */
  lemma {:induction false} UsedStopsThere<M>(buffer: string, attempts: seq<string>, decode: string -> seq<M>)
    requires '\n' !in buffer && Extract(buffer + Concat(attempts), decode) != []
    ensures var n := Used(buffer, attempts, decode);
            var found := Extract(buffer + Concat(attempts[..n]), decode);
            found != [] && AwaitWith(buffer, attempts, decode)
                           == Awaited(Some(found[0]), Leftover(buffer + Concat(attempts[..n])))
    decreases |attempts|
  {
    hide Extract, Leftover;
    if attempts == [] {
      assert buffer + "" == buffer;
      NoLine(buffer, decode);
    } else {
      var b := buffer + attempts[0];
      var n := Used(buffer, attempts, decode);
      assert attempts[..n][0] == attempts[0] && attempts[..n][1..] == attempts[1..n] == attempts[1..][..n - 1];
      var some := Concat(attempts[1..][..n - 1]);
      assert Concat(attempts[..n]) == attempts[0] + some && b + some == buffer + Concat(attempts[..n]);
      if Extract(b, decode) != [] {
        assert some == "" && b + "" == b;
      } else {
        RefinesLines(b, decode);
        assert b + Concat(attempts[1..]) == buffer + Concat(attempts);
        ChunkingInvariance(b, Concat(attempts[1..]), decode);
        ChunkingInvariance(b, some, decode);
        UsedStopsThere(Leftover(b), attempts[1..], decode);
      }
    }
  }

  /**
    What the next call finds is the stream's messages behind those that the attempts of this call completed: all but
    the first of these are lost.  So nothing is lost exactly if the attempts of this call completed one message.
   */
  lemma NothingLostExactly<M>(buffer: string, attempts: seq<string>, decode: string -> seq<M>)
    requires '\n' !in buffer && Extract(buffer + Concat(attempts), decode) != []
    ensures var n := Used(buffer, attempts, decode);
            var all := Extract(buffer + Concat(attempts), decode);
            var found := Extract(buffer + Concat(attempts[..n]), decode);
            var next := Extract(AwaitWith(buffer, attempts, decode).buffer + Concat(attempts[n..]), decode);
            found != [] && all == found + next && AwaitWith(buffer, attempts, decode).reply == Some(all[0])
            && (next == all[1..] <==> |found| == 1)
  {
    hide Extract, Leftover, AwaitWith, Used, Concat;
    var n := Used(buffer, attempts, decode);
    var b, rest := buffer + Concat(attempts[..n]), Concat(attempts[n..]);
    UsedStopsThere(buffer, attempts, decode);
    ConcatSplit(attempts, n);
    assert b + rest == buffer + Concat(attempts);
    ChunkingInvariance(b, rest, decode);
    var found, next := Extract(b, decode), Extract(Leftover(b) + rest, decode);
    AllButFirst(found, next);
  }

  lemma AllButFirst<M>(found: seq<M>, next: seq<M>)
    requires found != []
    ensures (found + next)[0] == found[0] && (next == (found + next)[1..] <==> |found| == 1)
  {
    assert (found + next)[1..] == found[1..] + next;
  }

  /** A beginning of two lines, long enough to hold the first but not all of the second. */
  lemma FirstOfTwo<M>(x: string, y: string, b: string, rest: string, decode: string -> seq<M>)
    requires '\n' !in x && '\n' !in y && b + rest == x + ['\n'] + (y + ['\n']) && rest != ""
    ensures |Extract(b, decode)| <= |decode(x)|
  {
    var both := x + ['\n'] + (y + ['\n']);
    assert b == both[..|b|] && |b| < |both|;
    if |b| <= |x| {
      assert b == x[..|b|];
      NoLine(b, decode);
    } else {
      var tail := y[..|b| - |x| - 1];
      assert b == x + ['\n'] + tail;
      FirstLine(x, tail, decode);
      NoLine(tail, decode);
    }
  }

  /**
    Two replies in one stream, however it is cut: the first is returned; the second is still there for the next call
    exactly if something is left to receive, and otherwise it is lost for ever.
   */
  lemma SecondReplyLost(a: Message, b: Message, attempts: seq<string>)
    requires Deliverable(a) && Deliverable(b) && Concat(attempts) == Serialize(a) + Serialize(b)
    ensures var n := Used("", attempts, LineMessages);
            Await("", attempts).reply == Some(a)
            && Messages(Await("", attempts).buffer + Concat(attempts[n..]))
               == if Concat(attempts[n..]) == "" then [] else [b]
  {
    hide LineMessages, Serialize, Frame, AwaitWith, Used, Concat, Extract, Leftover;
    var n := Used("", attempts, LineMessages);
    var before, rest := Concat(attempts[..n]), Concat(attempts[n..]);
    var both := Serialize(a) + Serialize(b);
    BothReplies(a, b);
    assert "" + Concat(attempts) == both && "" + before == before;
    ConcatSplit(attempts, n);
    NothingLostExactly("", attempts, LineMessages);
    if rest == "" {
      assert before + "" == before == both;
    } else {
      OneLineOf(a);
      OneLineOf(b);
      FirstOfTwo(Frame(a), Frame(b), before, rest, LineMessages);
      assert [a, b][1..] == [b];
    }
  }

  lemma BothReplies(a: Message, b: Message)
    requires Deliverable(a) && Deliverable(b)
    ensures Messages(Serialize(a) + Serialize(b)) == [a, b]
    ensures Serialize(a) + Serialize(b) == Frame(a) + ['\n'] + (Frame(b) + ['\n'])
  {
    hide LineMessages, Serialize, Frame;
    OneLineOf(a);
    OneLineOf(b);
    FirstLine(Frame(a), Serialize(b), LineMessages);
    FirstLine(Frame(b), "", LineMessages);
    NoLine("", LineMessages);
    assert Frame(b) + ['\n'] + "" == Serialize(b);
  }
}
