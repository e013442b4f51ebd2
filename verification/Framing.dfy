/**
  Cutting a byte stream into lines, for any meaning `decode` that one line may have.
  The laws of the framing loop of src/protocol/Protocol.cpp hold whatever a line decodes to.
 */
module Framing {
  import opened CommonUtils

  /** Everything the complete lines of a buffer decode to, in order. */
  function Extract<M>(buffer: string, decode: string -> seq<M>): seq<M>
    decreases |buffer|
  {
    var pos := Find(buffer, '\n', 0);
    if pos == |buffer| then [] else decode(buffer[..pos]) + Extract(buffer[pos + 1..], decode)
  }

  /** The incomplete line that stays in the buffer. */
  function Leftover(buffer: string): string
    decreases |buffer|
  {
    var pos := Find(buffer, '\n', 0);
    if pos == |buffer| then buffer else Leftover(buffer[pos + 1..])
  }

  /** A buffer whose first line is `line`. */
  lemma FirstLine<M>(line: string, rest: string, decode: string -> seq<M>)
    requires '\n' !in line
    ensures Extract(line + ['\n'] + rest, decode) == decode(line) + Extract(rest, decode)
    ensures Leftover(line + ['\n'] + rest) == Leftover(rest)
  {
    NewlineAt(line, rest);
  }

  lemma ExtractStep<M>(buffer: string, pos: nat, decode: string -> seq<M>)
    requires pos == Find(buffer, '\n', 0) < |buffer|
    ensures Extract(buffer, decode) == decode(buffer[..pos]) + Extract(buffer[pos + 1..], decode)
    ensures Leftover(buffer) == Leftover(buffer[pos + 1..])
  {
  }

  lemma NoMoreLines<M>(buffer: string, decode: string -> seq<M>)
    requires Find(buffer, '\n', 0) == |buffer|
    ensures Extract(buffer, decode) == [] && Leftover(buffer) == buffer
  {
  }

  lemma NewlineAt(line: string, rest: string)
    requires '\n' !in line
    ensures Find(line + ['\n'] + rest, '\n', 0) == |line|
    ensures (line + ['\n'] + rest)[..|line|] == line && (line + ['\n'] + rest)[|line| + 1..] == rest
  {
    FindAt(line + ['\n'] + rest, '\n', 0, |line|);
  }

  lemma NoLine<M>(text: string, decode: string -> seq<M>)
    requires '\n' !in text
    ensures Extract(text, decode) == [] && Leftover(text) == text
  {
    assert text[0..] == text;
    FindAbsent(text, '\n', 0);
  }

  lemma TakeLine(text: string) returns (line: string, rest: string)
    requires '\n' in text
    ensures text == line + ['\n'] + rest && '\n' !in line && |line| == Find(text, '\n', 0)
  {
    var pos := Find(text, '\n', 0);
    FindSpec(text, '\n', 0);
    line := text[0..pos];
    assert pos == |text| ==> line == text;
    rest := text[pos + 1..];
  }

  // ---------------------------------------------------------------- the loop refines a plain splitter

  /** Reference splitter: the complete lines of a text, without any decoding. */
  function Lines(text: string): seq<string>
    decreases |text|
  {
    var pos := Find(text, '\n', 0);
    if pos == |text| then [] else [text[..pos]] + Lines(text[pos + 1..])
  }

  function Terminated(lines: seq<string>): string
    decreases |lines|
  {
    if lines == [] then "" else lines[0] + ['\n'] + Terminated(lines[1..])
  }

  function DecodeAll<M>(lines: seq<string>, decode: string -> seq<M>): seq<M>
    decreases |lines|
  {
    if lines == [] then [] else decode(lines[0]) + DecodeAll(lines[1..], decode)
  }

  lemma LinesFirst<M>(line: string, rest: string, decode: string -> seq<M>)
    requires '\n' !in line
    ensures Lines(line + ['\n'] + rest) == [line] + Lines(rest)
    ensures DecodeAll([line] + Lines(rest), decode) == decode(line) + DecodeAll(Lines(rest), decode)
    ensures Terminated([line] + Lines(rest)) == line + ['\n'] + Terminated(Lines(rest))
  {
    NewlineAt(line, rest);
    assert ([line] + Lines(rest))[1..] == Lines(rest);
  }

  /** Bytes are conserved, nothing kept holds a newline, and each line is decoded on its own, in order. */
  lemma {:induction false} RefinesLines<M>(buffer: string, decode: string -> seq<M>)
    ensures buffer == Terminated(Lines(buffer)) + Leftover(buffer)
    ensures AllFree(Lines(buffer), '\n') && '\n' !in Leftover(buffer)
    ensures Extract(buffer, decode) == DecodeAll(Lines(buffer), decode)
    decreases |buffer|
  {
    if '\n' in buffer {
      var line, rest := TakeLine(buffer);
      RefinesLines(rest, decode);
      FirstLine(line, rest, decode);
      LinesFirst(line, rest, decode);
    } else {
      NoLine(buffer, decode);
      assert buffer[0..] == buffer;
      FindAbsent(buffer, '\n', 0);
    }
  }

  /** The splitter is the only way to cut a text: lines and tail are determined by it. */
  lemma {:induction false} LinesUnique(lines: seq<string>, tail: string)
    requires AllFree(lines, '\n') && '\n' !in tail
    ensures Lines(Terminated(lines) + tail) == lines && Leftover(Terminated(lines) + tail) == tail
    decreases |lines|
  {
    var none := (line: string) => [line];
    var text := Terminated(lines) + tail;
    if lines == [] {
      assert text == tail && text[0..] == tail;
      NoLine(tail, none);
      FindAbsent(text, '\n', 0);
    } else {
      var rest := Terminated(lines[1..]) + tail;
      LinesUnique(lines[1..], tail);
      assert text == lines[0] + ['\n'] + rest;
      FirstLine(lines[0], rest, none);
      LinesFirst(lines[0], rest, none);
      assert lines == [lines[0]] + lines[1..];
    }
  }

  // ---------------------------------------------------------------- chunking

  /** Extraction may be interrupted anywhere, as long as the leftover is kept. */
  lemma {:induction false} ChunkingInvariance<M>(b: string, c: string, decode: string -> seq<M>)
    ensures Extract(b + c, decode) == Extract(b, decode) + Extract(Leftover(b) + c, decode)
    ensures Leftover(b + c) == Leftover(Leftover(b) + c)
    decreases |b|
  {
    hide Extract, Leftover;
    if '\n' in b {
      var line, rest := TakeLine(b);
      ChunkingInvariance(rest, c, decode);
      FirstLine(line, rest, decode);
      FirstLine(line, rest + c, decode);
      assert b + c == line + ['\n'] + (rest + c);
    } else {
      NoLine(b, decode);
    }
  }

  /** A receive-and-extract loop that keeps its buffer, over the fragments it is given. */
  function PollAll<M>(buffer: string, fragments: seq<string>, decode: string -> seq<M>): (string, seq<M>)
    decreases |fragments|
  {
    if fragments == [] then (buffer, [])
    else
      var b := buffer + fragments[0];
      var (last, later) := PollAll(Leftover(b), fragments[1..], decode);
      (last, Extract(b, decode) + later)
  }

  /** A reader that keeps its leftover sees the stream, however the network cut it up. */
  lemma {:induction false} PollingIsFragmentationFree<M>(buffer: string, fragments: seq<string>,
                                                                decode: string -> seq<M>)
    requires '\n' !in buffer
    ensures PollAll(buffer, fragments, decode)
         == (Leftover(buffer + Concat(fragments)), Extract(buffer + Concat(fragments), decode))
    decreases |fragments|
  {
    if fragments == [] {
      assert buffer + "" == buffer;
      NoLine(buffer, decode);
    } else {
      var b := buffer + fragments[0];
      var rest := Concat(fragments[1..]);
      RefinesLines(b, decode);
      PollingIsFragmentationFree(Leftover(b), fragments[1..], decode);
      ChunkingInvariance(b, rest, decode);
      assert b + rest == buffer + Concat(fragments);
    }
  }

  /** A reader that takes a fresh buffer for every chunk and drops what is left of it. */
  function FreshExtraction<M>(chunks: seq<string>, decode: string -> seq<M>): seq<M>
    decreases |chunks|
  {
    if chunks == [] then [] else Extract(chunks[0], decode) + FreshExtraction(chunks[1..], decode)
  }

  /** Every receive ends at a line end, or is empty. */
  predicate WholeLines(chunks: seq<string>) {
    forall i :: 0 <= i < |chunks| ==> chunks[i] == "" || chunks[i][|chunks[i]| - 1] == '\n'
  }

  lemma {:induction false} FreshExtractionOfWholeLines<M>(chunks: seq<string>, decode: string -> seq<M>)
    requires WholeLines(chunks)
    ensures FreshExtraction(chunks, decode) == Extract(Concat(chunks), decode)
    decreases |chunks|
  {
    if chunks != [] {
      FreshExtractionOfWholeLines(chunks[1..], decode);
      NothingLeftOver(chunks[0]);
      ChunkingInvariance(chunks[0], Concat(chunks[1..]), decode);
      assert "" + Concat(chunks[1..]) == Concat(chunks[1..]);
    }
  }

  /** The lines that the fresh-buffer reader sees: the complete lines of each chunk, leftovers dropped. */
  function FreshLines(chunks: seq<string>): seq<string>
    decreases |chunks|
  {
    if chunks == [] then [] else Lines(chunks[0]) + FreshLines(chunks[1..])
  }

  lemma {:induction false} DecodeAllConcat<M>(a: seq<string>, b: seq<string>, decode: string -> seq<M>)
    ensures DecodeAll(a + b, decode) == DecodeAll(a, decode) + DecodeAll(b, decode)
    decreases |a|
  {
    if a == [] {
      assert a + b == b;
    } else {
      DecodeAllConcat(a[1..], b, decode);
      assert (a + b)[1..] == a[1..] + b;
    }
  }

  lemma {:induction false} FreshDecodesLines<M>(chunks: seq<string>, decode: string -> seq<M>)
    ensures FreshExtraction(chunks, decode) == DecodeAll(FreshLines(chunks), decode)
    decreases |chunks|
  {
    if chunks != [] {
      FreshDecodesLines(chunks[1..], decode);
      RefinesLines(chunks[0], decode);
      DecodeAllConcat(Lines(chunks[0]), FreshLines(chunks[1..]), decode);
    }
  }

  predicate IsSuffix(x: string, s: string) {
    |x| <= |s| && s[|s| - |x|..] == x
  }

  predicate LineSuffixes(seen: seq<string>, lines: seq<string>) {
    |seen| == |lines| && forall j :: 0 <= j < |lines| ==> IsSuffix(seen[j], lines[j])
  }

  lemma {:induction false} LinesConcat(b: string, c: string)
    ensures Lines(b + c) == Lines(b) + Lines(Leftover(b) + c)
    ensures Leftover(b + c) == Leftover(Leftover(b) + c)
    decreases |b|
  {
    hide Lines, Leftover;
    var none := (line: string) => [line];
    if '\n' in b {
      var line, rest := TakeLine(b);
      LinesConcat(rest, c);
      LinesFirst(line, rest, none);
      LinesFirst(line, rest + c, none);
      FirstLine(line, rest, none);
      FirstLine(line, rest + c, none);
      assert b + c == line + ['\n'] + (rest + c);
    } else {
      LinesUnique([], b);
      assert Terminated([]) + b == b;
    }
  }

  /** The rest of a stream of lines behind its first chunk: the lines still to come, the first without what was read. */
  lemma BehindChunk(lines: seq<string>, c: string, rest: string) returns (behind: seq<string>)
    requires AllFree(lines, '\n') && c + rest == Terminated(lines)
    ensures AllFree(behind, '\n') && rest == Terminated(behind)
    ensures |Lines(c)| <= |lines| && Lines(c) == lines[..|Lines(c)|]
    ensures var later := lines[|Lines(c)|..];
            if Leftover(c) == "" then behind == later
            else later != [] && |behind| == |later| && behind[1..] == later[1..] && later[0] == Leftover(c) + behind[0]
  {
    var none := (line: string) => [line];
    var left := Leftover(c);
    LinesUnique(lines, "");
    assert Terminated(lines) + "" == Terminated(lines);
    LinesConcat(c, rest);
    var later := Lines(left + rest);
    assert lines[..|Lines(c)|] == Lines(c) && lines[|Lines(c)|..] == later;
    RefinesLines(left + rest, none);
    RefinesLines(c, none);
    assert left + rest == Terminated(later) + "" == Terminated(later);
    if left == "" {
      behind := later;
      assert left + rest == rest;
    } else {
      behind := CutFirst(later, left, rest);
    }
  }

  /** Taking a newline-free beginning off a stream of lines shortens its first line. */
  lemma CutFirst(lines: seq<string>, left: string, rest: string) returns (behind: seq<string>)
    requires left != "" && '\n' !in left && left + rest == Terminated(lines) && AllFree(lines, '\n')
    ensures lines != [] && |behind| == |lines| && behind[1..] == lines[1..] && lines[0] == left + behind[0]
    ensures rest == Terminated(behind) && AllFree(behind, '\n')
  {
    var text := left + rest;
    assert text[0] == left[0];
    var tail := ['\n'] + Terminated(lines[1..]);
    assert text == lines[0] + tail;
    assert text[|lines[0]|] == tail[0] == '\n';
    assert forall i :: 0 <= i < |left| ==> text[i] == left[i] && text[i] != '\n';
    assert |left| <= |lines[0]|;
    var x := lines[0][|left|..];
    assert lines[0] == text[..|lines[0]|] && left == text[..|left|];
    assert lines[0] == left + x;
    behind := [x] + lines[1..];
    assert rest == text[|left|..] == x + tail;
    assert Terminated(behind) == x + ['\n'] + Terminated(lines[1..]);
    assert forall j :: 1 <= j < |behind| ==> behind[j] == lines[j];
    assert forall c :: c in x ==> c in lines[0];
  }

  /**
    For any chunks of any stream of lines: the fresh-buffer reader sees one line for every line of the stream, a suffix
    of it, and sees all of every line exactly if each chunk ends at a line end.
   */
  lemma {:induction false} FreshLinesExactly(lines: seq<string>, chunks: seq<string>)
    requires AllFree(lines, '\n') && Concat(chunks) == Terminated(lines)
    ensures LineSuffixes(FreshLines(chunks), lines)
    ensures FreshLines(chunks) == lines <==> WholeLines(chunks)
    decreases |chunks|
  {
    if chunks != [] {
      hide Lines, Leftover, Terminated, WholeLines, AllFree;
      var c, rest := chunks[0], chunks[1..];
      var behind := BehindChunk(lines, c, Concat(rest));
      FreshLinesExactly(behind, rest);
      NothingLeftOver(c);
      WholeFirst(chunks);
      GrowSuffixes(Lines(c), FreshLines(rest), behind, lines, Leftover(c));
    } else {
      NothingTerminated(lines);
    }
  }

  lemma NothingTerminated(lines: seq<string>)
    ensures Terminated(lines) == "" <==> lines == []
  {
  }

  /** Lines that decode to `ms` one by one, and others that decode differently wherever they differ. */
  lemma {:induction false} EachDecodes<M>(seen: seq<string>, lines: seq<string>, ms: seq<M>, decode: string -> seq<M>)
    requires |seen| == |lines| == |ms|
    requires forall j :: 0 <= j < |ms| ==> decode(lines[j]) == [ms[j]] && |decode(seen[j])| <= 1
    requires forall j :: 0 <= j < |ms| ==> (seen[j] != lines[j] ==> decode(seen[j]) != [ms[j]])
    ensures |DecodeAll(seen, decode)| <= |ms|
    ensures DecodeAll(seen, decode) == ms <==> seen == lines
    decreases |ms|
  {
    if ms != [] {
      EachDecodes(seen[1..], lines[1..], ms[1..], decode);
      HeadAndRest(decode(seen[0]), DecodeAll(seen[1..], decode), ms);
      assert seen == [seen[0]] + seen[1..] && lines == [lines[0]] + lines[1..];
    }
  }

  lemma HeadAndRest<M>(found: seq<M>, rest: seq<M>, ms: seq<M>)
    requires ms != [] && |found| <= 1 && |rest| <= |ms| - 1
    ensures found + rest == ms <==> found == [ms[0]] && rest == ms[1..]
  {
    if found + rest == ms {
      assert |found| == 1 && (found + rest)[0] == found[0] && (found + rest)[1..] == rest;
    }
  }

  lemma WholeFirst(chunks: seq<string>)
    requires chunks != []
    ensures WholeLines(chunks) <==> (chunks[0] == "" || chunks[0][|chunks[0]| - 1] == '\n') && WholeLines(chunks[1..])
  {
    assert forall i :: 0 < i < |chunks| ==> chunks[i] == chunks[1..][i - 1];
  }

  lemma GrowSuffixes(first: seq<string>, seen: seq<string>, behind: seq<string>, lines: seq<string>, left: string)
    requires LineSuffixes(seen, behind) && |first| <= |lines| && first == lines[..|first|]
    requires var later := lines[|first|..];
             if left == "" then behind == later
             else later != [] && |behind| == |later| && behind[1..] == later[1..] && later[0] == left + behind[0]
    ensures LineSuffixes(first + seen, lines)
    ensures first + seen == lines <==> left == "" && seen == behind
  {
    var later := lines[|first|..];
    assert lines == first + later;
    forall j | 0 <= j < |later| ensures IsSuffix(seen[j], later[j]) {
      assert IsSuffix(seen[j], behind[j]);
      assert j > 0 && left != "" ==> behind[j] == behind[1..][j - 1] == later[j];
    }
    assert first + seen == lines <==> seen == later by {
      assert (first + seen)[|first|..] == seen;
    }
    assert left != "" ==> |seen[0]| < |later[0]|;
  }

  /** A line that two receives cut: only its second part is ever looked at, as if it were a line. */
  lemma CutLineSeenFresh<M>(frame: string, k: nat, decode: string -> seq<M>)
    requires '\n' !in frame && 0 < k <= |frame|
    ensures FreshExtraction([(frame + ['\n'])[..k], (frame + ['\n'])[k..]], decode) == decode(frame[k..])
  {
    var first, second := (frame + ['\n'])[..k], (frame + ['\n'])[k..];
    assert first == frame[..k];
    NoLine(first, decode);
    assert second == frame[k..] + ['\n'] + "";
    FirstLine(frame[k..], "", decode);
    NoLine("", decode);
    assert [first, second][1..] == [second] && [second][1..] == [];
    assert FreshExtraction([second], decode) == Extract(second, decode) + FreshExtraction([], decode);
  }

  lemma {:induction false} NothingLeftOver(chunk: string)
    ensures Leftover(chunk) == "" <==> chunk == "" || chunk[|chunk| - 1] == '\n'
    decreases |chunk|
  {
    var none := (line: string) => [line];
    if '\n' in chunk {
      var line, rest := TakeLine(chunk);
      NothingLeftOver(rest);
      FirstLine(line, rest, none);
    } else {
      NoLine(chunk, none);
    }
  }

  /** A line that decodes to nothing can be put between any two lines without being noticed. */
  lemma MalformedLineIsIsolated<M>(before: string, line: string, after: string, decode: string -> seq<M>)
    requires Leftover(before) == "" && '\n' !in line && decode(line) == []
    ensures Extract(before + (line + ['\n'] + after), decode) == Extract(before + after, decode)
    ensures Leftover(before + (line + ['\n'] + after)) == Leftover(before + after)
  {
    ChunkingInvariance(before, line + ['\n'] + after, decode);
    ChunkingInvariance(before, after, decode);
    assert "" + (line + ['\n'] + after) == line + ['\n'] + after && "" + after == after;
    FirstLine(line, after, decode);
  }
}
