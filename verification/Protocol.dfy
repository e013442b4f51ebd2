/** Decoding and validating the lines of a stream (src/protocol/Protocol.cpp). */
module ProtocolStream {
  import opened CommonUtils
  import opened Decimal
  import opened MessageStructs
  import opened Framing

  predicate ValidMessage(m: Message) {
    m.kind != UNKNOWN && |m.payload| == m.length && |m.payload| <= MAX_MESSAGE_SIZE
  }

  predicate RequiresAuthentication(kind: u16) {
    kind != REGISTER_REQUEST && kind != LOGIN_REQUEST && kind != HEARTBEAT_REQUEST
    && kind != DISCONNECT_NOTIFICATION
  }

  predicate EndsWithCR(s: string) {
    s != "" && s[|s| - 1] == '\r'
  }

  function DropCR(line: string): string {
    if EndsWithCR(line) then line[..|line| - 1] else line
  }

  function DecodeLine(data: string): seq<Message> {
    if data == "" then []
    else
      var m := Deserialize(data);
      if ValidMessage(m) then [m] else []
  }

  /** The message that one line carries, or none. */
  function LineMessages(line: string): seq<Message> {
    DecodeLine(DropCR(line))
  }

  function Messages(buffer: string): seq<Message> {
    Extract(buffer, LineMessages)
  }

  /** A string that is changed in place, as `extractMessages` changes its argument. */
  class ByteBuffer {
    var data: string

    constructor ()
      ensures data == ""
    {
      data := "";
    }
  }

  class Protocol {
    constructor () {
    }

    method ExtractMessages(buffer: ByteBuffer) returns (messages: seq<Message>)
      modifies buffer
      ensures messages == Messages(old(buffer.data))
      ensures buffer.data == Leftover(old(buffer.data))
    {
      hide LineMessages;
      messages := [];
      var pos := Find(buffer.data, '\n', 0);
      while pos < |buffer.data|
        invariant pos == Find(buffer.data, '\n', 0)
        invariant messages + Extract(buffer.data, LineMessages) == Messages(old(buffer.data))
        invariant Leftover(buffer.data) == Leftover(old(buffer.data))
        decreases |buffer.data|
      {
        var messageData := EraseLine(buffer, pos, LineMessages);
        pos := Find(buffer.data, '\n', 0);
        var found := DecodeMessageData(messageData);
        messages := messages + found;
      }
      NoMoreLines(buffer.data, LineMessages);
    }

    /** `substr` and `erase` of the first line, for any meaning a line may have. */
    method EraseLine(buffer: ByteBuffer, pos: nat, ghost decode: string -> seq<Message>) returns (line: string)
      requires pos == Find(buffer.data, '\n', 0) < |buffer.data|
      modifies buffer
      ensures line == old(buffer.data[..pos]) && buffer.data == old(buffer.data[pos + 1..])
      ensures Extract(old(buffer.data), decode) == decode(line) + Extract(buffer.data, decode)
      ensures Leftover(buffer.data) == Leftover(old(buffer.data))
    {
      line := buffer.data[..pos];
      ExtractStep(buffer.data, pos, decode);
      buffer.data := buffer.data[pos + 1..];
    }

    /** The loop body for one line: drop a final CR, skip an empty line, decode, validate. */
    method DecodeMessageData(line: string) returns (found: seq<Message>)
      ensures found == LineMessages(line)
    {
      var messageData := line;
      found := [];
      if messageData != "" && messageData[|messageData| - 1] == '\r' {
        messageData := messageData[..|messageData| - 1];
      }
      if messageData != "" {
        var msg := DeserializeMessage(messageData);
        if ValidMessage(msg) {
          found := [msg];
        }
      }
    }
  }

  // ---------------------------------------------------------------- what a decoded message looks like

  lemma CutShape(data: string)
    ensures Cut(data).Fields? ==>
              var f := Cut(data);
              data == f.kind + ['|'] + f.length + ['|'] + f.sequence + ['|'] + f.payload
              && '|' !in f.kind && '|' !in f.length && '|' !in f.sequence
  {
    if Cut(data).Fields? {
      var p1 := Find(data, '|', 0);
      var p2 := Find(data, '|', p1 + 1);
      var p3 := Find(data, '|', p2 + 1);
      FindSpec(data, '|', 0);
      FindSpec(data, '|', p1 + 1);
      FindSpec(data, '|', p2 + 1);
      assert data[0..p1] == data[..p1];
      ThreeBars(data, p1, p2, p3);
    }
  }

  lemma ThreeBars(data: string, p1: nat, p2: nat, p3: nat)
    requires p1 < p2 < p3 < |data| && data[p1] == data[p2] == data[p3] == '|'
    ensures data
         == data[..p1] + ['|'] + data[p1 + 1..p2] + ['|'] + data[p2 + 1..p3] + ['|'] + data[p3 + 1..]
  {
  }

  /** The payload of a decoded line is a proper part of it. */
  lemma PayloadInside(line: string, m: Message)
    requires m in LineMessages(line)
    ensures ValidMessage(m) && |m.payload| < |line| && (forall c :: c in m.payload ==> c in line)
  {
    var data := DropCR(line);
    CutShape(data);
    match Cut(data)
    case NoFields =>
    case Fields(k, l, q, p) =>
      DeserializeCut(data, Cut(data));
      assert m.payload == p;
      assert forall c :: c in p ==> c in data;
  }

  /** Every message extracted from a buffer is valid, holds no newline and is shorter than the buffer. */
  lemma {:induction false} ExtractedMessage(buffer: string, m: Message)
    requires m in Messages(buffer)
    ensures ValidMessage(m) && '\n' !in m.payload && |m.payload| < |buffer|
    decreases |buffer|
  {
    if '\n' in buffer {
      var line, rest := TakeLine(buffer);
      FirstLine(line, rest, LineMessages);
      if m in LineMessages(line) {
        PayloadInside(line, m);
      } else {
        ExtractedMessage(rest, m);
      }
    } else {
      NoLine(buffer, LineMessages);
    }
  }

  /** A header field on which `stoi` throws: the line carries no message, whatever else it holds. */
  lemma HeaderThrows(k: string, l: string, q: string, payload: string)
    requires '|' !in k && '|' !in l && '|' !in q && (Stoi(k) == None || Stoi(l) == None || Stoi(q) == None)
    ensures LineMessages(k + ['|'] + l + ['|'] + q + ['|'] + payload) == []
  {
    hide Stoi, Cut, DropCR;
    var header, body := k + ['|'] + l + ['|'] + q + ['|'], DropCR(payload);
    DropCRAfter(header, payload);
    CutFields(k, l, q, body);
    DeserializeCut(header + body, Fields(k, l, q, body));
    assert Deserialize(header + body).kind == UNKNOWN;
  }

  /** So a type, length or sequence field without a number makes the line worthless. */
  lemma UnreadableHeader(k: string, l: string, q: string, payload: string)
    requires '|' !in k && '|' !in l && '|' !in q && (NoNumber(k) || NoNumber(l) || NoNumber(q))
    ensures LineMessages(k + ['|'] + l + ['|'] + q + ['|'] + payload) == []
  {
    hide Stoi, LineMessages, NoNumber;
    if NoNumber(k) {
      NoNumberRefused(k);
    } else if NoNumber(l) {
      NoNumberRefused(l);
    } else {
      NoNumberRefused(q);
    }
    HeaderThrows(k, l, q, payload);
  }

  // ---------------------------------------------------------------- deliverability

  predicate Deliverable(m: Message) {
    m.sequence <= INT_MAX && ValidMessage(m) && '\n' !in m.payload && !EndsWithCR(m.payload)
  }

  lemma HeaderShape(m: Message)
    ensures '\n' !in Header(m) && Header(m) != "" && Header(m)[|Header(m)| - 1] == '|'
  {
    DigitsFree(m.kind, '\n');
    DigitsFree(m.length, '\n');
    DigitsFree(m.sequence, '\n');
  }

  lemma DropCRAfter(h: string, q: string)
    requires h != "" && h[|h| - 1] != '\r'
    ensures DropCR(h + q) == h + DropCR(q)
  {
    assert q != "" ==> (h + q)[|h + q| - 1] == q[|q| - 1];
  }

  lemma DecodeLineOf(data: string, m: Message)
    requires data != "" && Deserialize(data) == m
    ensures DecodeLine(data) == if ValidMessage(m) then [m] else []
  {
  }

  /** A line with the header of `m` and any text behind it. */
  lemma HeaderLine(m: Message, q: string)
    ensures var x := m.(payload := DropCR(q));
            LineMessages(Header(m) + q) == (if m.sequence <= INT_MAX && ValidMessage(x) then [x] else [])
  {
    var h, body := Header(m), DropCR(q);
    HeaderShape(m);
    DropCRAfter(h, q);
    HeaderDecodes(m, body);
    DecodeLineOf(h + body, if m.sequence <= INT_MAX then m.(payload := body) else BLANK.(length := m.length));
  }

  lemma SerializedOnOneLine(m: Message)
    requires '\n' !in m.payload
    ensures Messages(Serialize(m)) == LineMessages(Frame(m)) && Leftover(Serialize(m)) == ""
  {
    HeaderShape(m);
    FirstLine(Frame(m), "", LineMessages);
    NoLine("", LineMessages);
    assert Frame(m) + ['\n'] + "" == Serialize(m);
  }

  lemma SerializedOnManyLines(m: Message)
    requires '\n' in m.payload
    ensures m !in Messages(Serialize(m)) && Leftover(Serialize(m)) == ""
  {
    var line, rest := TakeLine(m.payload);
    HeaderShape(m);
    assert Serialize(m) == (Header(m) + line) + ['\n'] + (rest + ['\n']);
    FirstLine(Header(m) + line, rest + ['\n'], LineMessages);
    HeaderLine(m, line);
    if m in Messages(rest + ['\n']) {
      ExtractedMessage(rest + ['\n'], m);
    }
    NothingLeftOver(Serialize(m));
  }

  /** Which messages survive the wire, exactly; all others are not even among what is extracted. */
  lemma Deliverability(m: Message)
    ensures Deliverable(m) <==> Messages(Serialize(m)) == [m] && Leftover(Serialize(m)) == ""
    ensures Deliverable(m) <==> m in Messages(Serialize(m))
  {
    if '\n' in m.payload {
      SerializedOnManyLines(m);
    } else {
      SerializedOnOneLine(m);
      HeaderLine(m, m.payload);
      assert !EndsWithCR(m.payload) ==> m.(payload := DropCR(m.payload)) == m;
    }
  }

  /** The same for messages made by the constructor: the payload alone decides. */
  lemma ConstructedDeliverability(kind: u16, data: string)
    ensures Messages(Serialize(NewMessage(kind, data))) == [NewMessage(kind, data)]
       <==> kind != 0xFFFF && |data| <= 8192 && '\n' !in data && (data == "" || data[|data| - 1] != '\r')
  {
    Deliverability(NewMessage(kind, data));
    NothingLeftOver(Serialize(NewMessage(kind, data)));
  }

  /** A constructed message of one line that is not deliverable is not misread as another one. */
  lemma ConstructedOnOneLine(kind: u16, data: string)
    requires '\n' !in data
    ensures var m := NewMessage(kind, data);
            Messages(Serialize(m)) == (if Deliverable(m) then [m] else []) && Leftover(Serialize(m)) == ""
  {
    hide LineMessages;
    var m := NewMessage(kind, data);
    SerializedOnOneLine(m);
    HeaderLine(m, data);
    assert !EndsWithCR(data) ==> m.(payload := DropCR(data)) == m;
  }

  lemma OneLineOf(m: Message)
    requires Deliverable(m)
    ensures LineMessages(Frame(m)) == [m] && '\n' !in Frame(m) && Serialize(m) == Frame(m) + ['\n']
  {
    hide LineMessages;
    HeaderShape(m);
    HeaderLine(m, m.payload);
    assert m.(payload := DropCR(m.payload)) == m;
  }

  /** A deliverable request always fits into one receive buffer of the server. */
  lemma DeliverableFitsOneReceive(m: Message)
    requires Deliverable(m)
    ensures |Serialize(m)| < 8220 <= BUFFER_SIZE - 1
  {
    DigitsLength(m.kind);
    DigitsLength(m.length);
    DigitsLength(m.sequence);
  }

  // ---------------------------------------------------------------- requests cut in two

  function Bars(s: string): nat {
    multiset(s)['|']
  }

  lemma BarsOf(n: nat)
    ensures Bars(Digits(n)) == 0
  {
    DigitsFree(n, '|');
  }

  lemma PrefixBars(front: string, payload: string, head: string, rest: string)
    requires front + payload == head + rest && |rest| >= |payload|
    ensures Bars(front) >= Bars(head)
  {
    var data := front + payload;
    assert front == data[..|front|] && head == data[..|head|];
    assert front == head + front[|head|..];
    assert Bars(front) == Bars(head) + Bars(front[|head|..]);
  }

  lemma HeadBars(k: string, l: string, q: string)
    requires '|' !in k && '|' !in l && '|' !in q
    ensures Bars(k + ['|'] + l + ['|'] + q + ['|']) == 3
  {
  }

  lemma DecodedPayload(data: string, m: Message)
    requires m in DecodeLine(data)
    ensures Cut(data).Fields? && m.payload == Cut(data).payload
  {
    hide Stoi, Cut;
  }

  /** Less than a whole header in front: what is taken for the payload has lost its beginning. */
  lemma FewBarsShortenPayload(front: string, payload: string, m: Message)
    requires Bars(front) <= 2 && m in DecodeLine(front + payload)
    ensures |m.payload| < |payload|
  {
    hide DecodeLine, Cut;
    var data := front + payload;
    CutShape(data);
    DecodedPayload(data, m);
    var f := Cut(data);
    var head := f.kind + ['|'] + f.length + ['|'] + f.sequence + ['|'];
    HeadBars(f.kind, f.length, f.sequence);
    assert data == head + f.payload;
    if |f.payload| >= |payload| {
      PrefixBars(front, payload, head, f.payload);
    }
  }

  lemma AssembleOther(kind: Option<int>, length: Option<int>, sequence: Option<int>, payload: string, m: Message)
    requires m.kind != UNKNOWN && (kind.Some? ==> 0 <= kind.value < m.kind)
    ensures Assemble(kind, length, sequence, payload) != m
  {
  }

  lemma OtherTypeDiffers(data: string, f: Fields, m: Message)
    requires f.Fields? && Cut(data) == f
    requires m.kind != UNKNOWN && (Stoi(f.kind).Some? ==> 0 <= Stoi(f.kind).value < m.kind)
    ensures m !in DecodeLine(data)
  {
    DeserializeCut(data, f);
    AssembleOther(Stoi(f.kind), Stoi(f.length), Stoi(f.sequence), f.payload, m);
    if data != "" {
      DecodeLineOf(data, Deserialize(data));
    }
  }

  /** A header whose type field has lost its first digits. */
  lemma BeheadedTypeDiffers(m: Message, k: nat)
    requires m.kind != UNKNOWN && 0 < k <= |Digits(m.kind)|
    ensures m !in DecodeLine(Frame(m)[k..])
  {
    var short := Digits(m.kind)[k..];
    var l, q := Digits(m.length), Digits(m.sequence);
    assert Frame(m)[k..] == short + ['|'] + l + ['|'] + q + ['|'] + m.payload;
    FieldReads(m.kind);
    FieldReads(m.length);
    FieldReads(m.sequence);
    CutFields(short, l, q, m.payload);
    ShortTypeReads(m.kind, k);
    OtherTypeDiffers(Frame(m)[k..], Fields(short, l, q, m.payload), m);
  }

  lemma ShortTypeReads(n: u16, k: nat)
    requires 0 < k <= |Digits(n)|
    ensures Stoi(Digits(n)[k..]).Some? ==> 0 <= Stoi(Digits(n)[k..]).value < n
  {
    var s := Digits(n);
    var short := s[k..];
    if k < |s| {
      DigitsAreDigits(n);
      DigitsSuffixSmaller(n, k);
      ValueOfSame(s, k, |s|, short);
      StoiReads(short, 0, |short|);
    }
  }

  /** A header cut after its first bar has two bars at most. */
  lemma BehindField(kind: string, l: string, q: string, k: nat, m: Message)
    requires Bars(l) == 0 && Bars(q) == 0
    requires |kind| < k < |kind| + |l| + |q| + 3
    ensures m !in DecodeLine((kind + ['|'] + l + ['|'] + q + ['|'] + m.payload)[k..])
  {
    var mid := l + ['|'] + q + ['|'];
    var cut := k - |kind| - 1;
    SuffixBars(mid, cut);
    FrameSuffix(kind, mid, m.payload, cut);
    assert kind + ['|'] + l + ['|'] + q + ['|'] + m.payload == kind + ['|'] + (mid + m.payload);
    if m in DecodeLine(mid[cut..] + m.payload) {
      FewBarsShortenPayload(mid[cut..], m.payload, m);
    }
  }

  lemma BehindTypeDiffers(m: Message, k: nat)
    requires |Digits(m.kind)| < k < |Header(m)|
    ensures m !in DecodeLine(Frame(m)[k..])
  {
    BarsOf(m.length);
    BarsOf(m.sequence);
    BehindField(Digits(m.kind), Digits(m.length), Digits(m.sequence), k, m);
  }

  lemma SuffixBars(s: string, cut: nat)
    requires cut <= |s|
    ensures Bars(s[cut..]) <= Bars(s)
  {
    assert s == s[..cut] + s[cut..];
  }

  lemma FrameSuffix(kind: string, mid: string, payload: string, cut: nat)
    requires cut <= |mid|
    ensures (kind + ['|'] + (mid + payload))[|kind| + 1 + cut..] == mid[cut..] + payload
  {
  }

  lemma SuffixOfFrame(m: Message, k: nat)
    requires Deliverable(m) && 0 < k <= |Frame(m)|
    ensures m !in LineMessages(Frame(m)[k..])
  {
    var tail := Frame(m)[k..];
    HeaderShape(m);
    assert tail != "" ==> tail[|tail| - 1] == Frame(m)[|Frame(m)| - 1];
    assert DropCR(tail) == tail;
    if k <= |Digits(m.kind)| {
      BeheadedTypeDiffers(m, k);
    } else if k < |Header(m)| {
      BehindTypeDiffers(m, k);
    } else if m in LineMessages(tail) {
      PayloadInside(tail, m);
    }
  }

  /** A request that two receives cut anywhere inside is lost: the server keeps no leftover. */
  lemma SplitRequestLost(m: Message, k: nat)
    requires Deliverable(m) && 0 < k < |Serialize(m)|
    ensures m !in FreshExtraction([Serialize(m)[..k], Serialize(m)[k..]], LineMessages)
  {
    HeaderShape(m);
    CutLineSeenFresh(Frame(m), k, LineMessages);
    SuffixOfFrame(m, k);
  }

  // ---------------------------------------------------------------- streams of requests cut anywhere

  /** The lines of a stream of messages. */
  function Frames(ms: seq<Message>): seq<string> {
    seq(|ms|, (i: nat) requires i < |ms| => Frame(ms[i]))
  }

  predicate AllDeliverable(ms: seq<Message>) {
    forall i :: 0 <= i < |ms| ==> Deliverable(ms[i])
  }

  lemma {:induction false} FramesOf(ms: seq<Message>)
    requires AllDeliverable(ms)
    ensures Terminated(Frames(ms)) == Encode(ms) && AllFree(Frames(ms), '\n')
    decreases |ms|
  {
    if ms != [] {
      FramesOf(ms[1..]);
      HeaderShape(ms[0]);
      assert Frames(ms)[1..] == Frames(ms[1..]);
    }
  }

  lemma OneOrNone(line: string)
    ensures |LineMessages(line)| <= 1
  {
    hide Deserialize, ValidMessage;
  }

  /** Of the line of a deliverable message, a suffix that is not the whole yields another message or none. */
  lemma SuffixDecodes(x: string, m: Message)
    requires Deliverable(m) && IsSuffix(x, Frame(m))
    ensures LineMessages(Frame(m)) == [m] && (x != Frame(m) ==> LineMessages(x) != [m])
  {
    hide LineMessages, Deliverable, Frame;
    OneLineOf(m);
    if x != Frame(m) {
      SuffixOfFrame(m, |Frame(m)| - |x|);
    }
  }

  lemma SuffixesDecode(seen: seq<string>, ms: seq<Message>)
    requires AllDeliverable(ms) && LineSuffixes(seen, Frames(ms))
    ensures DecodeAll(seen, LineMessages) == ms <==> seen == Frames(ms)
  {
    hide LineMessages, Deliverable, Frame, DecodeAll;
    var lines := Frames(ms);
    forall j | 0 <= j < |ms|
      ensures LineMessages(lines[j]) == [ms[j]] && |LineMessages(seen[j])| <= 1
      ensures seen[j] != lines[j] ==> LineMessages(seen[j]) != [ms[j]]
    {
      assert IsSuffix(seen[j], lines[j]);
      OneOrNone(seen[j]);
      SuffixDecodes(seen[j], ms[j]);
    }
    EachDecodes(seen, lines, ms, LineMessages);
  }

  /**
    When the server, which keeps no leftover, gets a whole stream of requests: for every stream of deliverable requests
    and every way to cut it into receives, exactly if each receive ends at a line end.
   */
  lemma StreamSurvivesExactly(ms: seq<Message>, chunks: seq<string>)
    requires AllDeliverable(ms) && Concat(chunks) == Encode(ms)
    ensures FreshExtraction(chunks, LineMessages) == ms <==> WholeLines(chunks)
  {
    hide LineMessages, Deliverable, WholeLines, FreshLines, FreshExtraction;
    FramesOf(ms);
    FreshLinesExactly(Frames(ms), chunks);
    FreshDecodesLines(chunks, LineMessages);
    SuffixesDecode(FreshLines(chunks), ms);
  }

  // ---------------------------------------------------------------- relaying a stream

  function Encode(ms: seq<Message>): string
    decreases |ms|
  {
    if ms == [] then "" else Serialize(ms[0]) + Encode(ms[1..])
  }

  function Kept(ms: seq<Message>): seq<Message>
    decreases |ms|
  {
    if ms == [] then [] else (if Deliverable(ms[0]) then [ms[0]] else []) + Kept(ms[1..])
  }

  lemma {:induction false} RelayKeepsDeliverable(ms: seq<Message>)
    requires forall i :: 0 <= i < |ms| ==> ValidMessage(ms[i]) && '\n' !in ms[i].payload
    ensures Messages(Encode(ms)) == Kept(ms)
    decreases |ms|
  {
    if ms == [] {
      NoLine("", LineMessages);
    } else {
      var m, rest := ms[0], Encode(ms[1..]);
      RelayKeepsDeliverable(ms[1..]);
      HeaderShape(m);
      FirstLine(Frame(m), rest, LineMessages);
      HeaderLine(m, m.payload);
      assert Serialize(m) + rest == Frame(m) + ['\n'] + rest;
    }
  }

  lemma {:induction false} KeptAll(ms: seq<Message>)
    ensures |Kept(ms)| <= |ms|
    ensures Kept(ms) == ms <==> forall i :: 0 <= i < |ms| ==> Deliverable(ms[i])
    decreases |ms|
  {
    if ms != [] {
      KeptAll(ms[1..]);
      assert ms == [ms[0]] + ms[1..];
      if Deliverable(ms[0]) && Kept(ms) == ms {
        assert Kept(ms)[1..] == Kept(ms[1..]);
        assert forall i :: 0 < i < |ms| ==> ms[i] == ms[1..][i - 1];
      }
    }
  }

  /**
    Normal form of a whole stream: decoding, re-encoding and decoding again changes nothing exactly when
    no message has a negative (wrapped) sequence field or a payload that ends in CR.
   */
  lemma RelayNormalForm(buffer: string)
    ensures Messages(Encode(Messages(buffer))) == Messages(buffer)
       <==> forall m :: m in Messages(buffer) ==> m.sequence <= INT_MAX && !EndsWithCR(m.payload)
  {
    var ms := Messages(buffer);
    forall i | 0 <= i < |ms| ensures ValidMessage(ms[i]) && '\n' !in ms[i].payload {
      ExtractedMessage(buffer, ms[i]);
    }
    RelayKeepsDeliverable(ms);
    KeptAll(ms);
  }

  /** A valid message with a sequence above 31 bits: it is received, and gone when it is sent on. */
  lemma WrappedIsNotRelayed(m: Message)
    requires m.sequence > INT_MAX && ValidMessage(m) && '\n' !in m.payload && !EndsWithCR(m.payload)
    ensures var line := ToString(m.kind) + ['|'] + ToString(m.length) + ['|']
                        + ToString(m.sequence - 0x1_0000_0000) + ['|'] + m.payload;
            Messages(line + ['\n']) == [m] && Messages(Encode(Messages(line + ['\n']))) == []
  {
    hide Deserialize, ToString, DropCR;
    var k, l, q := ToString(m.kind), ToString(m.length), ToString(m.sequence - 0x1_0000_0000);
    var header := k + ['|'] + l + ['|'] + q + ['|'];
    var line := header + m.payload;
    WrappedSequence(m);
    NumbersOnOneLine(m.kind, m.length, m.sequence - 0x1_0000_0000);
    DropCRAfter(header, m.payload);
    NothingDropped(m.payload);
    DecodeLineOf(line, m);
    OneMessageLine(line, m);
    NotSentOn(m);
    assert line == k + ['|'] + l + ['|'] + q + ['|'] + m.payload;
  }

  lemma NothingDropped(s: string)
    requires !EndsWithCR(s)
    ensures DropCR(s) == s
  {
  }

  lemma NumbersOnOneLine(k: int, l: int, q: int)
    ensures '\n' !in ToString(k) + ['|'] + ToString(l) + ['|'] + ToString(q) + ['|']
  {
    DigitsFree(if k < 0 then -k else k, '\n');
    DigitsFree(if l < 0 then -l else l, '\n');
    DigitsFree(if q < 0 then -q else q, '\n');
  }

  lemma OneMessageLine(line: string, m: Message)
    requires '\n' !in line && LineMessages(line) == [m]
    ensures Messages(line + ['\n']) == [m]
  {
    hide LineMessages;
    FirstLine(line, "", LineMessages);
    NoLine("", LineMessages);
    assert line + ['\n'] + "" == line + ['\n'];
  }

  /** A valid message of one line that is not deliverable does not come back from its own encoding. */
  lemma NotSentOn(m: Message)
    requires ValidMessage(m) && '\n' !in m.payload && !Deliverable(m)
    ensures Messages(Encode([m])) == []
  {
    hide Messages, Encode, ValidMessage, Deliverable;
    RelayKeepsDeliverable([m]);
    assert [m][1..] == [];
  }

  /** A valid payload that ends in CR, behind which the sender put another CR: received, and gone when it is sent on. */
  lemma DoubleCRIsNotRelayed(m: Message)
    requires m.sequence <= INT_MAX && ValidMessage(m) && '\n' !in m.payload && EndsWithCR(m.payload)
    ensures var text := Frame(m) + ['\r', '\n'];
            Messages(text) == [m] && Messages(Encode(Messages(text))) == []
  {
    hide LineMessages;
    var q := m.payload + ['\r'];
    HeaderShape(m);
    HeaderLine(m, q);
    assert DropCR(q) == m.payload;
    OneMessageLine(Header(m) + q, m);
    assert Header(m) + q + ['\n'] == Frame(m) + ['\r', '\n'];
    NotSentOn(m);
  }

  lemma PrintedLogin()
    ensures ToString(273) == "273" && ToString(0) == "0" && ToString(1) == "1" && ToString(-1) == "-1"
  {
    assert Digits(2) == [DigitChar(2)] && DigitChar(2) == '2';
    assert Digits(27) == Digits(2) + [DigitChar(7)] && DigitChar(7) == '7';
    assert Digits(273) == Digits(27) + [DigitChar(3)] && DigitChar(3) == '3';
    assert DigitChar(0) == '0' && DigitChar(1) == '1';
  }

  /** Two inputs on which decode, encode, decode is not decode. */
  lemma NotNormal()
    ensures Messages("273|0|-1|\n") == [Message(LOGIN_REQUEST, 0, 4294967295, "")]
    ensures Messages(Encode(Messages("273|0|-1|\n"))) == []
    ensures Messages("273|1|0|\r\r\n") == [Message(LOGIN_REQUEST, 1, 0, "\r")]
    ensures Messages(Encode(Messages("273|1|0|\r\r\n"))) == []
  {
    hide Messages, Encode, ToString, Digits;
    PrintedLogin();
    WrappedIsNotRelayed(Message(LOGIN_REQUEST, 0, 4294967295, ""));
    assert "273" + ['|'] + "0" + ['|'] + "-1" + ['|'] + "" + ['\n'] == "273|0|-1|\n";
    var m := Message(LOGIN_REQUEST, 1, 0, "\r");
    DoubleCRIsNotRelayed(m);
    assert "273" + ['|'] + "1" + ['|'] + "0" + ['|'] + "\r" + ['\r', '\n'] == "273|1|0|\r\r\n";
    PrintedFrame(m);
  }

  lemma PrintedFrame(m: Message)
    ensures Frame(m)
         == ToString(m.kind) + ['|'] + ToString(m.length) + ['|'] + ToString(m.sequence) + ['|'] + m.payload
  {
    hide Digits;
  }
}
