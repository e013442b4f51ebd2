/** Messages, their codes, and the line format TYPE|LENGTH|SEQUENCE|PAYLOAD (include/message_structs.hpp). */
module MessageStructs {
  import opened CommonUtils
  import opened Decimal

  const REGISTER_REQUEST: u16 := 0x0101
  const REGISTER_SUCCESS: u16 := 0x0102
  const REGISTER_FAILED: u16 := 0x0103
  const LOGIN_REQUEST: u16 := 0x0111
  const LOGIN_SUCCESS: u16 := 0x0112
  const LOGIN_FAILED: u16 := 0x0113
  const LOGOUT_REQUEST: u16 := 0x0121
  const LOGOUT_SUCCESS: u16 := 0x0122
  const SET_LEVEL_REQUEST: u16 := 0x0201
  const SET_LEVEL_SUCCESS: u16 := 0x0202
  const SET_LEVEL_FAILED: u16 := 0x0203
  const GET_LESSON_LIST_REQUEST: u16 := 0x0301
  const GET_LESSON_LIST_RESPONSE: u16 := 0x0302
  const GET_LESSON_CONTENT_REQUEST: u16 := 0x0311
  const GET_LESSON_CONTENT_RESPONSE: u16 := 0x0312
  const SUBMIT_QUIZ_REQUEST: u16 := 0x0401
  const SUBMIT_QUIZ_RESPONSE: u16 := 0x0402
  const SUBMIT_EXERCISE_REQUEST: u16 := 0x0411
  const SUBMIT_EXERCISE_RESPONSE: u16 := 0x0412
  const GAME_START_REQUEST: u16 := 0x0501
  const GAME_START_RESPONSE: u16 := 0x0502
  const GAME_MOVE_REQUEST: u16 := 0x0511
  const GAME_MOVE_RESPONSE: u16 := 0x0512
  const GET_SCORE_REQUEST: u16 := 0x0601
  const GET_SCORE_RESPONSE: u16 := 0x0602
  const GET_FEEDBACK_REQUEST: u16 := 0x0611
  const GET_FEEDBACK_RESPONSE: u16 := 0x0612
  const SEND_FEEDBACK_REQUEST: u16 := 0x0621
  const SEND_FEEDBACK_SUCCESS: u16 := 0x0622
  const CHAT_MESSAGE: u16 := 0x0701
  const CHAT_MESSAGE_ACK: u16 := 0x0702
  const VOICE_CALL_REQUEST: u16 := 0x0711
  const VOICE_CALL_ACCEPT: u16 := 0x0712
  const ADD_GAME_ITEM_REQUEST: u16 := 0x0801
  const ADD_GAME_ITEM_SUCCESS: u16 := 0x0802
  const ADD_GAME_ITEM_FAILED: u16 := 0x0803
  const HEARTBEAT_REQUEST: u16 := 0x0901
  const HEARTBEAT_RESPONSE: u16 := 0x0902
  const ERROR_MESSAGE: u16 := 0x0911
  const DISCONNECT_NOTIFICATION: u16 := 0x0921
  const UNKNOWN: u16 := 0xFFFF

  /** Header and payload together; the enum has a fixed 16-bit underlying type, so any code may occur. */
  datatype Message = Message(kind: u16, length: u16, sequence: u32, payload: string)

  /** The default constructor. */
  const BLANK := Message(UNKNOWN, 0, 0, "")

  /** The constructor from a type and its data: the length is cast to 16 bits. */
  function NewMessage(kind: u16, data: string): Message {
    Message(kind, |data| % 0x1_0000, 0, data)
  }

  function Header(m: Message): string {
    Digits(m.kind) + ['|'] + Digits(m.length) + ['|'] + Digits(m.sequence) + ['|']
  }

  function Frame(m: Message): string {
    Header(m) + m.payload
  }

  function Serialize(m: Message): string {
    Frame(m) + ['\n']
  }

  /** A line cut at its first three bars. */
  datatype Fields = NoFields | Fields(kind: string, length: string, sequence: string, payload: string)

  function Cut(data: string): Fields {
    var pos1 := Find(data, '|', 0);
    if pos1 == |data| then NoFields
    else
      var pos2 := Find(data, '|', pos1 + 1);
      if pos2 == |data| then NoFields
      else
        var pos3 := Find(data, '|', pos2 + 1);
        if pos3 == |data| then NoFields
        else Fields(data[..pos1], data[pos1 + 1..pos2], data[pos2 + 1..pos3], data[pos3 + 1..])
  }

  /** What the parsed header fields assign, one after the other; a throw leaves UNKNOWN. */
  function Assemble(kind: Option<int>, length: Option<int>, sequence: Option<int>, payload: string): Message {
    if kind == None || length == None then BLANK
    else if sequence == None then BLANK.(length := length.value % 0x1_0000)
    else Message(kind.value % 0x1_0000, length.value % 0x1_0000, sequence.value % 0x1_0000_0000, payload)
  }

  function Deserialize(data: string): Message {
    match Cut(data)
    case NoFields => BLANK
    case Fields(kind, length, sequence, payload) =>
      Assemble(Stoi(kind), Stoi(length), Stoi(sequence), payload)
  }

  /** The three searches of `Message::deserialize`, each with its early return. */
  method CutLine(data: string) returns (fields: Fields)
    ensures fields == Cut(data)
  {
    fields := NoFields;
    var pos1 := Find(data, '|', 0);
    if pos1 == |data| {
      return;
    }
    var pos2 := Find(data, '|', pos1 + 1);
    if pos2 == |data| {
      return;
    }
    var pos3 := Find(data, '|', pos2 + 1);
    if pos3 == |data| {
      return;
    }
    fields := Fields(data[..pos1], data[pos1 + 1..pos2], data[pos2 + 1..pos3], data[pos3 + 1..]);
  }

  /** The try block: fields assigned one by one, UNKNOWN as soon as `stoi` throws. */
  method AssignFields(kind: string, length: string, sequence: string, payload: string) returns (msg: Message)
    ensures msg == Assemble(Stoi(kind), Stoi(length), Stoi(sequence), payload)
  {
    msg := BLANK;
    var k := Stoi(kind);
    if k == None {
      return;
    }
    msg := msg.(kind := k.value % 0x1_0000);
    var l := Stoi(length);
    if l == None {
      msg := msg.(kind := UNKNOWN);
      return;
    }
    msg := msg.(length := l.value % 0x1_0000);
    var q := Stoi(sequence);
    if q == None {
      msg := msg.(kind := UNKNOWN);
      return;
    }
    msg := msg.(sequence := q.value % 0x1_0000_0000, payload := payload);
  }

  method DeserializeMessage(data: string) returns (msg: Message)
    ensures msg == Deserialize(data)
  {
    msg := BLANK;
    var fields := CutLine(data);
    if fields.Fields? {
      msg := AssignFields(fields.kind, fields.length, fields.sequence, fields.payload);
    }
  }

  // ---------------------------------------------------------------- the codec laws

  lemma CutAt(data: string, p1: nat, p2: nat, p3: nat)
    requires p1 < p2 < p3 < |data| && data[p1] == data[p2] == data[p3] == '|'
    requires '|' !in data[0..p1] && '|' !in data[p1 + 1..p2] && '|' !in data[p2 + 1..p3]
    ensures Cut(data) == Fields(data[..p1], data[p1 + 1..p2], data[p2 + 1..p3], data[p3 + 1..])
  {
    FindAt(data, '|', 0, p1);
    FindAt(data, '|', p1 + 1, p2);
    FindAt(data, '|', p2 + 1, p3);
  }

  /** The first three bars delimit the fields, whatever the payload holds. */
  lemma CutFields(kind: string, length: string, sequence: string, payload: string)
    requires '|' !in kind && '|' !in length && '|' !in sequence
    ensures Cut(kind + ['|'] + length + ['|'] + sequence + ['|'] + payload)
         == Fields(kind, length, sequence, payload)
  {
    hide Cut;
    var data := kind + ['|'] + length + ['|'] + sequence + ['|'] + payload;
    var p1 := |kind|;
    var p2 := p1 + 1 + |length|;
    var p3 := p2 + 1 + |sequence|;
    assert data[..p1] == data[0..p1] == kind && data[p1] == '|';
    assert data[p1 + 1..p2] == length && data[p2] == '|';
    assert data[p2 + 1..p3] == sequence && data[p3] == '|';
    assert data[p3 + 1..] == payload;
    CutAt(data, p1, p2, p3);
  }

  lemma AssembleReads(f: Fields, kind: int, m: Message)
    requires f.Fields? && Stoi(f.kind) == Some(kind) && kind % 0x1_0000 == m.kind
    requires Stoi(f.length) == Some(m.length) && Stoi(f.sequence) == Ranged(m.sequence)
    ensures Assemble(Stoi(f.kind), Stoi(f.length), Stoi(f.sequence), f.payload)
         == if m.sequence <= INT_MAX then m.(payload := f.payload) else BLANK.(length := m.length)
  {
  }

  lemma DeserializeCut(data: string, f: Fields)
    requires f.Fields? && Cut(data) == f
    ensures Deserialize(data) == Assemble(Stoi(f.kind), Stoi(f.length), Stoi(f.sequence), f.payload)
  {
  }

  /** Any spelling of the three header fields that `stoi` reads as those of `m` decodes to `m`. */
  lemma FieldsDecode(k: string, l: string, q: string, payload: string, kind: int, m: Message)
    requires '|' !in k && '|' !in l && '|' !in q
    requires Stoi(k) == Some(kind) && kind % 0x1_0000 == m.kind
    requires Stoi(l) == Some(m.length) && Stoi(q) == Ranged(m.sequence)
    ensures Deserialize(k + ['|'] + l + ['|'] + q + ['|'] + payload)
         == if m.sequence <= INT_MAX then m.(payload := payload) else BLANK.(length := m.length)
  {
    CutFields(k, l, q, payload);
    DeserializeCut(k + ['|'] + l + ['|'] + q + ['|'] + payload, Fields(k, l, q, payload));
    AssembleReads(Fields(k, l, q, payload), kind, m);
  }

  lemma FieldReads(n: nat)
    ensures '|' !in Digits(n) && Stoi(Digits(n)) == Ranged(n)
  {
    DigitsFree(n, '|');
    StoiDigits(n);
  }

  /** A header decodes with any payload behind it; a sequence number past 31 bits makes it UNKNOWN. */
  lemma HeaderDecodes(m: Message, payload: string)
    ensures Deserialize(Header(m) + payload)
         == if m.sequence <= INT_MAX then m.(payload := payload) else BLANK.(length := m.length)
  {
    FieldReads(m.kind);
    FieldReads(m.length);
    FieldReads(m.sequence);
    FieldsDecode(Digits(m.kind), Digits(m.length), Digits(m.sequence), payload, m.kind, m);
  }

  /** The codec round trip, exactly where it holds: any type, length and payload, a 31-bit sequence. */
  lemma RoundTrip(m: Message)
    ensures Deserialize(Frame(m)) == m <==> m.sequence <= INT_MAX
    ensures Serialize(m)[..|Serialize(m)| - 1] == Frame(m)
  {
    HeaderDecodes(m, m.payload);
  }

  /** Re-encoding any decoded text is a normal form, except for a negative sequence field. */
  lemma NormalForm(data: string)
    ensures var m := Deserialize(data); Deserialize(Frame(m)) == m <==> m.sequence <= INT_MAX
    ensures var m := Deserialize(data); m.sequence <= INT_MAX ==> Frame(Deserialize(Frame(m))) == Frame(m)
  {
    RoundTrip(Deserialize(data));
  }

  /**
    One message, many spellings: in every field blanks, a plus, leading zeros, multiples of the field's range (also
    negative ones) and trailing junk decode alike.
   */
  lemma ManySpellings(m: Message, kind: int, length: int, sequence: int, k: Spelling, l: Spelling, q: Spelling)
    requires INT_MIN <= kind <= INT_MAX && INT_MIN <= length <= INT_MAX && INT_MIN <= sequence <= INT_MAX
    requires kind % 0x1_0000 == m.kind && length % 0x1_0000 == m.length && sequence % 0x1_0000_0000 == m.sequence
    requires CanSpell(k) && CanSpell(l) && CanSpell(q) && '|' !in k.junk && '|' !in l.junk && '|' !in q.junk
    ensures Deserialize(Spell(kind, k) + ['|'] + Spell(length, l) + ['|'] + Spell(sequence, q) + ['|'] + m.payload) == m
  {
    hide Stoi, Spell, Cut, Deserialize;
    var f := Fields(Spell(kind, k), Spell(length, l), Spell(sequence, q), m.payload);
    StoiOfSpelling(kind, k);
    StoiOfSpelling(length, l);
    StoiOfSpelling(sequence, q);
    SpellingFree(kind, k, '|');
    SpellingFree(length, l, '|');
    SpellingFree(sequence, q, '|');
    CutFields(f.kind, f.length, f.sequence, f.payload);
    DeserializeCut(f.kind + ['|'] + f.length + ['|'] + f.sequence + ['|'] + f.payload, f);
  }

  const AS_PRINTED := Spelling("", false, 0, "")

  lemma SpelledAsPrinted(n: int)
    ensures Spell(n, AS_PRINTED) == ToString(n)
  {
    assert Zeros(0) == "";
  }

  /** Every sequence number above 31 bits is received from the negative number that wraps to it. */
  lemma WrappedSequence(m: Message)
    requires m.sequence > INT_MAX
    ensures Deserialize(ToString(m.kind) + ['|'] + ToString(m.length) + ['|']
                        + ToString(m.sequence - 0x1_0000_0000) + ['|'] + m.payload) == m
    ensures Deserialize(Frame(m)) == BLANK.(length := m.length)
  {
    hide Deserialize, ToString, Spell;
    var q := m.sequence - 0x1_0000_0000;
    SpelledAsPrinted(m.kind);
    SpelledAsPrinted(m.length);
    SpelledAsPrinted(q);
    ManySpellings(m, m.kind, m.length, q, AS_PRINTED, AS_PRINTED, AS_PRINTED);
    HeaderDecodes(m, m.payload);
  }

  /** No two messages share a serialized form, not even those whose sequence cannot be read back. */
  lemma SerializeInjective(a: Message, b: Message)
    requires Serialize(a) == Serialize(b)
    ensures a == b
  {
    assert Frame(a) == Serialize(a)[..|Serialize(a)| - 1] == Frame(b);
    var aq, bq := Digits(a.sequence) + ['|'] + a.payload, Digits(b.sequence) + ['|'] + b.payload;
    var al, bl := Digits(a.length) + ['|'] + aq, Digits(b.length) + ['|'] + bq;
    FrameNests(a);
    FrameNests(b);
    FieldAgrees(Frame(a), Digits(a.kind), al, Digits(b.kind), bl, a.kind, b.kind);
    FieldAgrees(al, Digits(a.length), aq, Digits(b.length), bq, a.length, b.length);
    FieldAgrees(aq, Digits(a.sequence), a.payload, Digits(b.sequence), b.payload, a.sequence, b.sequence);
  }

  lemma FrameNests(m: Message)
    ensures Frame(m)
         == Digits(m.kind) + ['|'] + (Digits(m.length) + ['|'] + (Digits(m.sequence) + ['|'] + m.payload))
  {
  }

  lemma FieldAgrees(s: string, x: string, xs: string, y: string, ys: string, m: nat, n: nat)
    requires s == x + ['|'] + xs == y + ['|'] + ys
    requires x == Digits(m) && y == Digits(n)
    ensures m == n && xs == ys
  {
    DigitsFree(m, '|');
    DigitsFree(n, '|');
    assert s[0..|x|] == x && s[0..|y|] == y;
    FindAfter(s, '|', 0, x);
    FindAfter(s, '|', 0, y);
    assert xs == s[|x| + 1..] == ys;
    ValueOfDigits(m);
    ValueOfDigits(n);
  }
}
