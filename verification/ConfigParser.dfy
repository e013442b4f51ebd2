/** The key/value scanner of `Parser::parseConfigFile` (src/utils/Parser.cpp). */
module ConfigParser {
  import opened CommonUtils

  datatype Entry = NoEntry | Entry(key: string, value: string, next: nat)

  function SkipGap(s: string, from: nat): (r: nat)
    requires from <= |s|
    ensures from <= r <= |s|
    decreases |s| - from
  {
    if from == |s| || (s[from] != ' ' && s[from] != '\t') then from else SkipGap(s, from + 1)
  }

  predicate EndsBareValue(c: char) {
    c == ',' || c == '}' || c == '\n'
  }

  /** `find_first_of(",}\n")`, with npos read as the length, as the scanner does. */
  function BareEnd(s: string, from: nat): (r: nat)
    requires from <= |s|
    ensures from <= r <= |s|
    decreases |s| - from
  {
    if from == |s| || EndsBareValue(s[from]) then from else BareEnd(s, from + 1)
  }

  /** The value at `pos`, which is neither a space nor a tab. */
  function ReadValue(content: string, key: string, pos: nat): Entry
    requires pos < |content|
  {
    if content[pos] == '"' then
      var end := Find(content, '"', pos + 1);
      if end == |content| then NoEntry else Entry(key, content[pos + 1..end], end + 1)
    else
      var end := BareEnd(content, pos);
      Entry(key, Trim(content[pos..end]), end)
  }

  /** One round of the scanner, whose search has found a quote at `open`; a `break` gives `NoEntry`. */
  function ReadFrom(content: string, open: nat): (e: Entry)
    requires open < |content|
    ensures e.Entry? ==> open < e.next <= |content|
  {
    var close := Find(content, '"', open + 1);
    if close == |content| then NoEntry
    else
      var colon := Find(content, ':', close);
      if colon == |content| then NoEntry
      else
        var start := SkipGap(content, colon + 1);
        if start == |content| then NoEntry else ReadValue(content, content[open + 1..close], start)
  }

  function Scan(content: string, pos: nat, config: map<string, string>): map<string, string>
    requires pos <= |content|
    decreases |content| - pos
  {
    var open := Find(content, '"', pos);
    if open == |content| then config
    else
      match ReadFrom(content, open)
      case NoEntry => config
      case Entry(key, value, next) => Scan(content, next, config[key := value])
  }

  method ReadRound(content: string, open: nat) returns (entry: Entry)
    requires open < |content|
    ensures entry == ReadFrom(content, open)
  {
    hide Trim;
    var keyEnd := Find(content, '"', open + 1);
    if keyEnd == |content| {
      return NoEntry;
    }
    var pos := Find(content, ':', keyEnd);
    if pos == |content| {
      return NoEntry;
    }
    pos := pos + 1;
    ghost var gap := pos;
    while pos < |content| && (content[pos] == ' ' || content[pos] == '\t')
      invariant gap <= pos <= |content| && SkipGap(content, pos) == SkipGap(content, gap)
    {
      pos := pos + 1;
    }
    if pos >= |content| {
      return NoEntry;
    }
    entry := ReadValueAt(content, content[open + 1..keyEnd], pos);
  }

  method ReadValueAt(content: string, key: string, pos: nat) returns (entry: Entry)
    requires pos < |content|
    ensures entry == ReadValue(content, key, pos)
  {
    if content[pos] == '"' {
      var valueEnd := Find(content, '"', pos + 1);
      if valueEnd == |content| {
        return NoEntry;
      }
      entry := Entry(key, content[pos + 1..valueEnd], valueEnd + 1);
    } else {
      var valueEnd := BareEnd(content, pos);
      entry := Entry(key, Trim(content[pos..valueEnd]), valueEnd);
    }
  }

  /** `parseConfigFile`: `None` is a file that cannot be opened; `config` is the caller's map. */
  method ParseConfigFile(file: Option<string>, config: map<string, string>)
    returns (ok: bool, result: map<string, string>)
    ensures file == None ==> !ok && result == config
    ensures file.Some? ==> result == Scan(file.value, 0, config) && ok == (result != map[])
  {
    hide ReadFrom;
    result := config;
    if file == None {
      return false, result;
    }
    var content := file.value;
    var pos := Find(content, '"', 0);
    ghost var cursor := 0;
    while pos < |content|
      invariant 0 <= cursor <= |content| && pos == Find(content, '"', cursor)
      invariant Scan(content, cursor, result) == Scan(content, 0, config)
      decreases |content| - pos
    {
      var entry := ReadRound(content, pos);
      if entry == NoEntry {
        break;
      }
      result := result[entry.key := entry.value];
      pos := entry.next;
      cursor := pos;
      pos := Find(content, '"', pos);
    }
    ok := result != map[];
  }

  // ---------------------------------------------------------------- rendered configurations

  /** A value as written, in quotes or bare; blanks may stand behind a bare one. */
  datatype Value = Quoted(text: string) | Bare(text: string, pad: string)

  /** A pair as written: anything but a colon before the colon, a gap behind it, and anything but a quote at the end. */
  datatype Pair = Pair(key: string, middle: string, gap: string, value: Value, tail: string)

  predicate OnlyFrom(s: string, cs: set<char>) {
    forall i :: 0 <= i < |s| ==> s[i] in cs
  }

  predicate NoneFrom(s: string, cs: set<char>) {
    forall i :: 0 <= i < |s| ==> s[i] !in cs
  }

  /** A bare value ends at a comma, a closing brace or a newline, and starts with neither a blank nor a quote. */
  predicate RenderableValue(v: Value, tail: string) {
    match v
    case Quoted(text) => '"' !in text
    case Bare(text, pad) =>
      Trim(text) == text && OnlyFrom(pad, {' ', '\t', '\r'}) && NoneFrom(text, {',', '}', '\n'})
      && tail != "" && tail[0] in {',', '}', '\n'} && (text + pad + tail)[0] !in {' ', '\t', '"'}
  }

  predicate Renderable(p: Pair) {
    '"' !in p.key && ':' !in p.middle && OnlyFrom(p.gap, {' ', '\t'}) && '"' !in p.tail
    && RenderableValue(p.value, p.tail)
  }

  function RenderValue(v: Value): string {
    match v
    case Quoted(text) => ['"'] + text + ['"']
    case Bare(text, pad) => text + pad
  }

  function RenderKey(p: Pair): string {
    ['"'] + p.key + ['"'] + p.middle + [':'] + p.gap
  }

  function RenderPair(p: Pair): string {
    RenderKey(p) + RenderValue(p.value) + p.tail
  }

  function Render(pairs: seq<Pair>): string
    decreases |pairs|
  {
    if pairs == [] then "" else RenderPair(pairs[0]) + Render(pairs[1..])
  }

  /** Later pairs win. */
  function Override(config: map<string, string>, pairs: seq<Pair>): map<string, string>
    decreases |pairs|
  {
    if pairs == [] then config else Override(config[pairs[0].key := pairs[0].value.text], pairs[1..])
  }

  predicate At(content: string, pos: nat, part: string) {
    pos + |part| <= |content| && content[pos..pos + |part|] == part
  }

  lemma AtSplit(content: string, pos: nat, x: string, y: string)
    requires At(content, pos, x + y)
    ensures At(content, pos, x) && At(content, pos + |x|, y)
  {
    assert content[pos..pos + |x|] == (x + y)[..|x|] == x;
    assert content[pos + |x|..pos + |x| + |y|] == (x + y)[|x|..] == y;
  }

  lemma {:induction false} BareEndAt(s: string, from: nat, end: nat)
    requires from <= end < |s| && EndsBareValue(s[end])
    requires forall i :: from <= i < end ==> !EndsBareValue(s[i])
    ensures BareEnd(s, from) == end
    decreases end - from
  {
    if from < end {
      BareEndAt(s, from + 1, end);
    }
  }

  lemma {:induction false} SkipGapAt(s: string, from: nat, end: nat)
    requires from <= end < |s| && s[end] != ' ' && s[end] != '\t'
    requires forall i :: from <= i < end ==> s[i] == ' ' || s[i] == '\t'
    ensures SkipGap(s, from) == end
    decreases end - from
  {
    if from < end {
      SkipGapAt(s, from + 1, end);
    }
  }

  lemma ReadQuoted(content: string, key: string, pos: nat, text: string)
    requires At(content, pos, ['"'] + text + ['"']) && '"' !in text
    ensures ReadValue(content, key, pos) == Entry(key, text, pos + |text| + 2)
  {
    AtSplit(content, pos, ['"'] + text, ['"']);
    AtSplit(content, pos, ['"'], text);
    assert content[pos] == content[pos..pos + 1][0];
    var end := pos + 1 + |text|;
    assert content[end] == content[end..end + 1][0];
    FindAfter(content, '"', pos + 1, text);
  }

  lemma ReadBare(content: string, key: string, pos: nat, text: string, pad: string, tail: string)
    requires At(content, pos, text + pad + tail) && RenderableValue(Bare(text, pad), tail)
    ensures ReadValue(content, key, pos) == Entry(key, text, pos + |text| + |pad|)
  {
    hide Trim, BareEnd;
    var body := text + pad;
    var end := pos + |body|;
    AtSplit(content, pos, body, tail);
    assert content[pos] == content[pos..pos + |body + tail|][0] == (body + tail)[0];
    assert content[end] == content[end..end + |tail|][0] == tail[0];
    BodyHasNoEnd(text, pad, tail);
    forall i | pos <= i < end ensures !EndsBareValue(content[i]) {
      assert content[i] == content[pos..end][i - pos] == body[i - pos];
    }
    BareEndAt(content, pos, end);
    TrimmedBare(text, pad);
  }

  /** A bare value may also end with the text. */
  lemma ReadLastBare(content: string, key: string, pos: nat, text: string, pad: string)
    requires pos < |content| && content[pos..] == text + pad && content[pos] != '"'
    requires Trim(text) == text && OnlyFrom(pad, {' ', '\t', '\r'}) && NoneFrom(text, {',', '}', '\n'})
    ensures ReadValue(content, key, pos) == Entry(key, text, |content|)
  {
    hide Trim, BareEnd;
    var body := text + pad;
    assert content[pos..|content|] == body;
    forall i | pos <= i < |content| ensures !EndsBareValue(content[i]) {
      assert content[i] == content[pos..][i - pos] == body[i - pos];
    }
    BareEndToEnd(content, pos);
    TrimmedBare(text, pad);
  }

  lemma {:induction false} BareEndToEnd(s: string, from: nat)
    requires from <= |s| && forall i :: from <= i < |s| ==> !EndsBareValue(s[i])
    ensures BareEnd(s, from) == |s|
    decreases |s| - from
  {
    if from < |s| {
      BareEndToEnd(s, from + 1);
    }
  }

  lemma BodyHasNoEnd(text: string, pad: string, tail: string)
    requires RenderableValue(Bare(text, pad), tail)
    ensures forall i :: 0 <= i < |text + pad| ==> !EndsBareValue((text + pad)[i])
    ensures EndsBareValue(tail[0])
  {
    hide Trim;
  }

  lemma TrimmedBare(text: string, pad: string)
    requires Trim(text) == text && OnlyFrom(pad, {' ', '\t', '\r'})
    ensures Trim(text + pad) == text
  {
    hide Trim;
    TrimmedEnds(text);
    TrimSurrounded("", text, pad);
    assert "" + text + pad == text + pad;
  }

  lemma TrimmedEnds(text: string)
    requires Trim(text) == text
    ensures text != "" ==> !IsBlank(text[0]) && !IsBlank(text[|text| - 1])
  {
  }

  /** The scanner on a key, its colon and the gap behind it, wherever they stand. */
  lemma ReadKey(content: string, open: nat, p: Pair)
    requires At(content, open, RenderKey(p)) && open + |RenderKey(p)| < |content|
    requires '"' !in p.key && ':' !in p.middle && OnlyFrom(p.gap, {' ', '\t'})
    requires content[open + |RenderKey(p)|] !in {' ', '\t'}
    ensures content[open] == '"'
    ensures ReadFrom(content, open) == ReadValue(content, p.key, open + |RenderKey(p)|)
  {
    hide ReadValue;
    var close := open + 1 + |p.key|;
    var colon := close + 1 + |p.middle|;
    var start := colon + 1 + |p.gap|;
    KeyParts(content, open, p);
    FindAfter(content, '"', open + 1, p.key);
    var quoted := ['"'] + p.middle;
    assert content[close..colon] == quoted;
    FindAfter(content, ':', close, quoted);
    forall i | colon + 1 <= i < start ensures content[i] == ' ' || content[i] == '\t' {
      assert content[i] == content[colon + 1..start][i - colon - 1];
    }
    SkipGapAt(content, colon + 1, start);
  }

  lemma KeyParts(content: string, open: nat, p: Pair)
    requires At(content, open, RenderKey(p))
    ensures var close := open + 1 + |p.key|;
            var colon := close + 1 + |p.middle|;
            colon + 1 + |p.gap| <= |content| && content[open] == '"' && content[open + 1..close] == p.key
            && content[close] == '"' && content[close + 1..colon] == p.middle && content[colon] == ':'
            && content[colon + 1..colon + 1 + |p.gap|] == p.gap
  {
    var close := open + 1 + |p.key|;
    var colon := close + 1 + |p.middle|;
    AtSplit(content, open, ['"'] + p.key + ['"'] + p.middle + [':'], p.gap);
    AtSplit(content, open, ['"'] + p.key + ['"'] + p.middle, [':']);
    AtSplit(content, open, ['"'] + p.key + ['"'], p.middle);
    AtSplit(content, open, ['"'] + p.key, ['"']);
    AtSplit(content, open, ['"'], p.key);
    assert content[open] == content[open..open + 1][0];
    assert content[close] == content[close..close + 1][0];
    assert content[colon] == content[colon..colon + 1][0];
  }

  /** One rendered pair, read wherever it stands: the cursor ends up in front of its tail. */
  lemma ReadRendered(content: string, pos: nat, p: Pair)
    requires At(content, pos, RenderPair(p)) && Renderable(p)
    ensures ReadFrom(content, pos) == Entry(p.key, p.value.text, pos + |RenderPair(p)| - |p.tail|)
    ensures pos < |content| && content[pos] == '"' && At(content, pos + |RenderPair(p)| - |p.tail|, p.tail)
  {
    hide ReadFrom, ReadValue, RenderKey, Trim;
    var k, v := RenderKey(p), RenderValue(p.value);
    assert RenderPair(p) == k + v + p.tail == k + (v + p.tail);
    AtSplit(content, pos, k + v, p.tail);
    AtSplit(content, pos, k, v + p.tail);
    var start := pos + |k|;
    assert content[start..start + |v + p.tail|] == v + p.tail;
    assert v + p.tail != "" && content[start] == (v + p.tail)[0];
    ReadKey(content, pos, p);
    match p.value
    case Quoted(text) =>
      AtSplit(content, start, v, p.tail);
      ReadQuoted(content, p.key, start, text);
    case Bare(text, pad) => ReadBare(content, p.key, start, text, pad, p.tail);
  }

  /** A pair that the text breaks off: in its key, before its colon, before its value, or in a quoted value. */
  predicate BrokenOff(rest: string, p: Pair) {
    '"' !in p.key && ':' !in p.middle && OnlyFrom(p.gap, {' ', '\t'})
    && (rest == ['"'] + p.key
        || rest == ['"'] + p.key + ['"'] + p.middle
        || rest == RenderKey(p)
        || ('"' !in p.value.text && rest == RenderKey(p) + ['"'] + p.value.text))
  }

  lemma {:induction false} SkipGapToEnd(s: string, from: nat)
    requires from <= |s| && forall i :: from <= i < |s| ==> s[i] == ' ' || s[i] == '\t'
    ensures SkipGap(s, from) == |s|
    decreases |s| - from
  {
    if from < |s| {
      SkipGapToEnd(s, from + 1);
    }
  }

  lemma BrokenValue(content: string, open: nat, p: Pair)
    requires At(content, open, RenderKey(p) + ['"'] + p.value.text) && '"' !in p.value.text
    requires open + |RenderKey(p)| + 1 + |p.value.text| == |content|
    requires '"' !in p.key && ':' !in p.middle && OnlyFrom(p.gap, {' ', '\t'})
    ensures ReadFrom(content, open) == NoEntry
  {
    hide RenderKey, ReadFrom;
    var start := open + |RenderKey(p)|;
    AtSplit(content, open, RenderKey(p) + ['"'], p.value.text);
    AtSplit(content, open, RenderKey(p), ['"']);
    assert content[start] == content[start..start + 1][0];
    ReadKey(content, open, p);
    FindAbsent(content, '"', start + 1);
  }

  lemma KeyLength(p: Pair)
    ensures |RenderKey(p)| == |p.key| + |p.middle| + |p.gap| + 3
  {
  }

  lemma BrokenGap(content: string, open: nat, p: Pair)
    requires At(content, open, RenderKey(p)) && open + |RenderKey(p)| == |content|
    requires '"' !in p.key && ':' !in p.middle && OnlyFrom(p.gap, {' ', '\t'})
    ensures ReadFrom(content, open) == NoEntry
  {
    hide RenderKey;
    var close := open + 1 + |p.key|;
    var colon := close + 1 + |p.middle|;
    KeyParts(content, open, p);
    KeyLength(p);
    FindAfter(content, '"', open + 1, p.key);
    var quoted := ['"'] + p.middle;
    assert content[close..colon] == quoted;
    FindAfter(content, ':', close, quoted);
    forall i | colon + 1 <= i < |content| ensures content[i] == ' ' || content[i] == '\t' {
      assert content[i] == content[colon + 1..|content|][i - colon - 1];
    }
    SkipGapToEnd(content, colon + 1);
  }

  lemma BrokenKey(content: string, open: nat, key: string, middle: string)
    requires open < |content| && '"' !in key && ':' !in middle
    requires content[open..] == ['"'] + key || content[open..] == ['"'] + key + ['"'] + middle
    ensures ReadFrom(content, open) == NoEntry
  {
    var rest := content[open..];
    assert content[open + 1..] == rest[1..];
    if rest == ['"'] + key {
      assert rest[1..] == key;
      FindAbsent(content, '"', open + 1);
    } else {
      var close := open + 1 + |key|;
      assert content[open + 1..close] == rest[1..1 + |key|] == key && content[close] == rest[1 + |key|];
      assert content[close..] == rest[1 + |key|..] == ['"'] + middle;
      FindAfter(content, '"', open + 1, key);
      FindAbsent(content, ':', close);
    }
  }

  /** Such a pair ends the scan, and what was read before it stays. */
  lemma BrokenOffEnds(content: string, cursor: nat, open: nat, p: Pair, config: map<string, string>)
    requires cursor <= open < |content| && '"' !in content[cursor..open] && BrokenOff(content[open..], p)
    ensures Scan(content, cursor, config) == config
  {
    hide ReadFrom;
    var rest := content[open..];
    assert content[open] == rest[0] == '"';
    FindAfter(content, '"', cursor, content[cursor..open]);
    assert At(content, open, rest);
    if rest == ['"'] + p.key || rest == ['"'] + p.key + ['"'] + p.middle {
      BrokenKey(content, open, p.key, p.middle);
    } else if rest == RenderKey(p) {
      BrokenGap(content, open, p);
    } else {
      BrokenValue(content, open, p);
    }
  }

  lemma ScanNothing(content: string, cursor: nat, pos: nat, config: map<string, string>)
    requires cursor <= pos <= |content| && '"' !in content[cursor..pos] && '"' !in content[pos..]
    ensures Scan(content, cursor, config) == config
  {
    assert content[cursor..] == content[cursor..pos] + content[pos..];
    FindAbsent(content, '"', cursor);
  }

  lemma ScanStep(content: string, cursor: nat, open: nat, e: Entry, config: map<string, string>)
    requires cursor <= open < |content| && Find(content, '"', cursor) == open
    requires ReadFrom(content, open) == e && e.Entry?
    ensures Scan(content, cursor, config) == Scan(content, e.next, config[e.key := e.value])
  {
    hide ReadFrom;
  }

  lemma RenderedFirst(content: string, pos: nat, pairs: seq<Pair>, end: nat) returns (next: nat)
    requires pairs != [] && pos <= end <= |content| && content[pos..end] == Render(pairs)
    ensures pos <= next <= end && content[pos..next] == RenderPair(pairs[0]) && content[next..end] == Render(pairs[1..])
  {
    hide RenderPair;
    var r, rest := RenderPair(pairs[0]), Render(pairs[1..]);
    assert Render(pairs) == r + rest;
    next := pos + |r|;
    assert At(content, pos, r + rest);
    AtSplit(content, pos, r, rest);
  }

  lemma OverrideStep(config: map<string, string>, pairs: seq<Pair>)
    requires pairs != []
    ensures Override(config, pairs) == Override(config[pairs[0].key := pairs[0].value.text], pairs[1..])
  {
  }

  lemma ScanRenderedPair(content: string, cursor: nat, pos: nat, p: Pair, next: nat, config: map<string, string>)
    requires cursor <= pos <= next <= |content| && content[pos..next] == RenderPair(p)
    requires '"' !in content[cursor..pos] && Renderable(p)
    ensures |p.tail| <= next && '"' !in content[next - |p.tail|..next]
    ensures Scan(content, cursor, config) == Scan(content, next - |p.tail|, config[p.key := p.value.text])
  {
    hide ReadFrom, RenderValue, RenderableValue, RenderKey, Scan;
    ReadRendered(content, pos, p);
    var gap := content[cursor..pos];
    FindAfter(content, '"', cursor, gap);
    ScanStep(content, cursor, pos, Entry(p.key, p.value.text, next - |p.tail|), config);
  }

  /** From a cursor with no quote before `pos`, where the rest of the pairs stands, to one with none before `end`. */
  lemma {:induction false} ScanRendered(content: string, cursor: nat, pos: nat, pairs: seq<Pair>, end: nat,
                                        config: map<string, string>)
    returns (last: nat)
    requires cursor <= pos <= end <= |content| && '"' !in content[cursor..pos]
    requires content[pos..end] == Render(pairs)
    requires forall i :: 0 <= i < |pairs| ==> Renderable(pairs[i])
    ensures last <= end && '"' !in content[last..end]
    ensures Scan(content, cursor, config) == Scan(content, last, Override(config, pairs))
    decreases |pairs|
  {
    hide Scan, Renderable, RenderPair;
    if pairs == [] {
      last := cursor;
    } else {
      var p := pairs[0];
      var next := RenderedFirst(content, pos, pairs, end);
      ScanRenderedPair(content, cursor, pos, p, next, config);
      last := ScanRendered(content, next - |p.tail|, next, pairs[1..], end, config[p.key := p.value.text]);
      OverrideStep(config, pairs);
    }
  }

  /** What the rest of the text, from a quote on, adds to the pairs read before it: a bare value may end the text. */
  predicate LastBare(rest: string, p: Pair) {
    '"' !in p.key && ':' !in p.middle && OnlyFrom(p.gap, {' ', '\t'})
    && p.value.Bare? && Trim(p.value.text) == p.value.text && NoneFrom(p.value.text, {',', '}', '\n'})
    && OnlyFrom(p.value.pad, {' ', '\t', '\r'}) && RenderValue(p.value) != ""
    && RenderValue(p.value)[0] !in {' ', '\t', '"'} && rest == RenderKey(p) + RenderValue(p.value)
  }

  lemma LastBareIsRead(content: string, cursor: nat, open: nat, p: Pair, config: map<string, string>)
    requires cursor <= open < |content| && '"' !in content[cursor..open] && LastBare(content[open..], p)
    ensures Scan(content, cursor, config) == config[p.key := p.value.text]
  {
    hide ReadFrom, ReadValue, RenderKey, Trim;
    var k, v := RenderKey(p), RenderValue(p.value);
    assert At(content, open, k + v);
    AtSplit(content, open, k, v);
    var start := open + |k|;
    assert content[start..|content|] == v && content[start] == v[0];
    ReadKey(content, open, p);
    FindAfter(content, '"', cursor, content[cursor..open]);
    ReadLastBare(content, p.key, start, p.value.text, p.value.pad);
    ScanStep(content, cursor, open, Entry(p.key, p.value.text, |content|), config);
    ScanNothing(content, |content|, |content|, config[p.key := p.value.text]);
  }

  /**
    A configuration of any such pairs behind a quote-free text is read back exactly: compact or with gaps of spaces and
    tabs, quoted or bare, each bare value ended by a comma, a closing brace or a newline.  Behind the pairs may stand a
    text without quotes, which adds nothing, one more pair with a bare value that ends the text, which counts, or one
    that is broken off, which does not.
   */
  lemma RenderedConfigIsRead(before: string, pairs: seq<Pair>, after: string, last: Pair)
    requires '"' !in before && forall i :: 0 <= i < |pairs| ==> Renderable(pairs[i])
    requires '"' !in after || LastBare(after, last) || BrokenOff(after, last)
    ensures Scan(before + Render(pairs) + after, 0, map[])
         == if '"' in after && LastBare(after, last) then Override(map[], pairs)[last.key := last.value.text]
            else Override(map[], pairs)
  {
    hide Scan, Renderable, LastBare, BrokenOff, Render;
    var content := before + Render(pairs) + after;
    var end := |before| + |Render(pairs)|;
    assert content[0..|before|] == before && content[|before|..end] == Render(pairs) && content[end..] == after;
    var cursor := ScanRendered(content, 0, |before|, pairs, end, map[]);
    if '"' !in after {
      ScanNothing(content, cursor, end, Override(map[], pairs));
    } else if LastBare(after, last) {
      LastBareIsRead(content, cursor, end, last, Override(map[], pairs));
    } else {
      BrokenOffEnds(content, cursor, end, last, Override(map[], pairs));
    }
  }

  /** What the map holds in the end: for each key the last value given to it. */
  lemma {:induction false} LaterPairsWin(config: map<string, string>, pairs: seq<Pair>, i: nat)
    requires i < |pairs| && forall j :: i < j < |pairs| ==> pairs[j].key != pairs[i].key
    ensures pairs[i].key in Override(config, pairs) && Override(config, pairs)[pairs[i].key] == pairs[i].value.text
    decreases |pairs|
  {
    var next := config[pairs[0].key := pairs[0].value.text];
    if i > 0 {
      LaterPairsWin(next, pairs[1..], i - 1);
    } else {
      OthersKeep(next, pairs[1..], pairs[0].key);
    }
  }

  lemma {:induction false} OthersKeep(config: map<string, string>, pairs: seq<Pair>, key: string)
    requires forall j :: 0 <= j < |pairs| ==> pairs[j].key != key
    ensures key in Override(config, pairs) <==> key in config
    ensures key in config ==> Override(config, pairs)[key] == config[key]
    decreases |pairs|
  {
    if pairs != [] {
      OthersKeep(config[pairs[0].key := pairs[0].value.text], pairs[1..], key);
    }
  }
}
