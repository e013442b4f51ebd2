/** The string helpers of include/common.hpp, and the joining loop that the list handlers use. */
module CommonUtils {

  const MAX_MESSAGE_SIZE: nat := 8192
  const BUFFER_SIZE: nat := 16384

  datatype Option<+T> = None | Some(value: T)

  /** Position of the first `c` at or after `from`; `|s|` plays the role of npos. */
  function Find(s: string, c: char, from: nat): (r: nat)
    requires from <= |s|
    ensures from <= r <= |s|
    decreases |s| - from
  {
    if from == |s| || s[from] == c then from else Find(s, c, from + 1)
  }

  lemma {:induction false} FindSpec(s: string, c: char, from: nat)
    requires from <= |s|
    ensures c !in s[from..Find(s, c, from)]
    ensures Find(s, c, from) < |s| ==> s[Find(s, c, from)] == c
    decreases |s| - from
  {
    var r := Find(s, c, from);
    if from < |s| && s[from] != c {
      FindSpec(s, c, from + 1);
      assert s[from..r] == [s[from]] + s[from + 1..r];
    }
  }

  lemma {:induction false} FindAt(s: string, c: char, from: nat, r: nat)
    requires from <= r < |s| && s[r] == c
    requires forall i :: from <= i < r ==> s[i] != c
    ensures Find(s, c, from) == r
    decreases r - from
  {
    if from < r {
      FindAt(s, c, from + 1, r);
    }
  }

  lemma {:induction false} FindAbsent(s: string, c: char, from: nat)
    requires from <= |s| && c !in s[from..]
    ensures Find(s, c, from) == |s|
    decreases |s| - from
  {
    if from < |s| {
      assert s[from..] == [s[from]] + s[from + 1..];
      FindAbsent(s, c, from + 1);
    }
  }

  /** `field` stands at `from`, and `c` right behind it. */
  lemma FindAfter(data: string, c: char, from: nat, field: string)
    requires from + |field| < |data| && data[from..from + |field|] == field && data[from + |field|] == c
    requires c !in field
    ensures Find(data, c, from) == from + |field|
  {
    forall i | from <= i < from + |field| ensures data[i] != c {
      assert data[i] == field[i - from];
    }
    FindAt(data, c, from, from + |field|);
  }

  // ---------------------------------------------------------------- split

  predicate AllFree(tokens: seq<string>, d: char) {
    forall i :: 0 <= i < |tokens| ==> d !in tokens[i]
  }

  /** What the getline loop collects: a final delimiter opens no last token, and "" has none. */
  function Split(s: string, d: char): (tokens: seq<string>)
    decreases |s|
  {
    if s == "" then []
    else
      var i := Find(s, d, 0);
      if i == |s| then [s] else [s[..i]] + Split(s[i + 1..], d)
  }

  lemma {:induction false} SplitClean(s: string, d: char)
    ensures AllFree(Split(s, d), d)
    decreases |s|
  {
    if s != "" {
      var i := Find(s, d, 0);
      FindSpec(s, d, 0);
      assert s[0..i] == s[..i];
      if i < |s| {
        SplitClean(s[i + 1..], d);
      }
    }
  }

  /** One token more: `x` up to the delimiter, then whatever the rest splits into. */
  lemma SplitStep(x: string, d: char, rest: string)
    requires d !in x
    ensures Split(x + [d] + rest, d) == [x] + Split(rest, d)
  {
    var s := x + [d] + rest;
    FindAt(s, d, 0, |x|);
    assert s[..|x|] == x && s[|x| + 1..] == rest;
  }

  lemma SplitLast(x: string, d: char)
    requires d !in x
    ensures Split(x, d) == if x == "" then [] else [x]
  {
    if x != "" {
      FindAbsent(x, d, 0);
    }
  }

  /** One round of getline: a token up to the next delimiter or the end. */
  lemma SplitSuffix(str: string, d: char, pos: nat, end: nat, next: nat)
    requires pos < |str| && end == Find(str, d, pos) && next == if end < |str| then end + 1 else end
    ensures Split(str[pos..], d) == [str[pos..end]] + Split(str[next..], d)
  {
    var x := str[pos..end];
    FindSpec(str, d, pos);
    if end < |str| {
      assert str[pos..] == x + [d] + str[next..];
      SplitStep(x, d, str[next..]);
    } else {
      assert str[pos..] == x;
      SplitLast(x, d);
    }
  }

  method SplitTokens(str: string, delimiter: char) returns (tokens: seq<string>)
    ensures tokens == Split(str, delimiter)
  {
    hide Split;
    tokens := [];
    var pos := 0;
    assert str[0..] == str;
    while pos < |str|
      invariant pos <= |str|
      invariant tokens + Split(str[pos..], delimiter) == Split(str, delimiter)
    {
      var end := Find(str, delimiter, pos);
      var next := if end < |str| then end + 1 else end;
      SplitSuffix(str, delimiter, pos, end, next);
      tokens := tokens + [str[pos..end]];
      pos := next;
    }
    SplitLast(str[pos..], delimiter);
  }

  // ---------------------------------------------------------------- trim

  predicate IsBlank(c: char) {
    c == ' ' || c == '\t' || c == '\n' || c == '\r'
  }

  /** As ASCII codes: unlike `isspace`, neither the vertical tab nor the form feed. */
  lemma BlankCodes(c: char)
    ensures IsBlank(c) <==> c as int == 32 || 9 <= c as int <= 10 || c as int == 13
  {
  }

  function FirstNotBlank(s: string, from: nat): (r: nat)
    requires from <= |s|
    ensures from <= r <= |s|
    ensures forall i :: from <= i < r ==> IsBlank(s[i])
    ensures r < |s| ==> !IsBlank(s[r])
    decreases |s| - from
  {
    if from == |s| || !IsBlank(s[from]) then from else FirstNotBlank(s, from + 1)
  }

  /** One past the last character that is not blank. */
  function LastNotBlank(s: string, to: nat): (r: nat)
    requires to <= |s|
    ensures r <= to
    ensures forall i :: r <= i < to ==> IsBlank(s[i])
    ensures r > 0 ==> !IsBlank(s[r - 1])
  {
    if to == 0 || !IsBlank(s[to - 1]) then to else LastNotBlank(s, to - 1)
  }

  function Trim(s: string): (r: string)
    ensures r != "" ==> !IsBlank(r[0]) && !IsBlank(r[|r| - 1])
    ensures forall c :: c in r ==> c in s
    ensures forall c :: c in s && !IsBlank(c) ==> c in r
  {
    var first := FirstNotBlank(s, 0);
    if first == |s| then ""
    else
      var end := LastNotBlank(s, |s|);
      assert forall i :: 0 <= i < |s| && !IsBlank(s[i]) ==> first <= i < end;
      assert forall i :: first <= i < end ==> s[first..end][i - first] == s[i];
      s[first..end]
  }

  /** Surrounding blanks are exactly what `Trim` takes away. */
  lemma TrimSurrounded(left: string, core: string, right: string)
    requires forall c :: c in left || c in right ==> IsBlank(c)
    requires core == "" || (!IsBlank(core[0]) && !IsBlank(core[|core| - 1]))
    ensures Trim(left + core + right) == core
  {
    var s := left + core + right;
    assert forall i :: 0 <= i < |left| ==> s[i] == left[i];
    assert forall i :: |left| + |core| <= i < |s| ==> s[i] == right[i - |left| - |core|];
    if core == "" {
      assert forall i :: 0 <= i < |s| ==> IsBlank(s[i]);
    } else {
      assert s[|left|] == core[0];
      assert FirstNotBlank(s, 0) == |left|;
      assert s[|left| + |core| - 1] == core[|core| - 1];
      assert LastNotBlank(s, |s|) == |left| + |core|;
      assert s[|left|..|left| + |core|] == core;
    }
  }

  // ---------------------------------------------------------------- joining a list with ';'

  /** The accumulator loop of the list handlers: no separator while nothing has been written. */
  function JoinFrom(acc: string, entries: seq<string>): string
    decreases |entries|
  {
    if entries == [] then acc
    else JoinFrom((if acc != "" then acc + ";" else acc) + entries[0], entries[1..])
  }

  function JoinEntries(entries: seq<string>): string {
    JoinFrom("", entries)
  }

  method JoinLoop(entries: seq<string>) returns (response: string)
    ensures response == JoinEntries(entries)
  {
    response := "";
    for i := 0 to |entries|
      invariant JoinFrom(response, entries[i..]) == JoinEntries(entries)
    {
      assert entries[i..][1..] == entries[i + 1..];
      if response != "" {
        response := response + ";";
      }
      response := response + entries[i];
    }
  }

  /** Reference joining: a separator between every two neighbours. */
  function Intercalate(entries: seq<string>): string
    decreases |entries|
  {
    if entries == [] then ""
    else if |entries| == 1 then entries[0]
    else entries[0] + [';'] + Intercalate(entries[1..])
  }

  lemma {:induction false} JoinFromNonempty(acc: string, entries: seq<string>)
    requires acc != "" && entries != []
    ensures JoinFrom(acc, entries) == acc + [';'] + Intercalate(entries)
    decreases |entries|
  {
    var next := acc + ";" + entries[0];
    if |entries| > 1 {
      JoinFromNonempty(next, entries[1..]);
      assert next + [';'] + Intercalate(entries[1..]) == acc + [';'] + Intercalate(entries);
    }
  }

  /** Leading empty entries vanish from the joined text; from the first nonempty one on nothing does. */
  lemma JoinIsIntercalate(entries: seq<string>)
    ensures entries != [] && entries[0] == "" ==> JoinEntries(entries) == JoinEntries(entries[1..])
    ensures entries != [] && entries[0] != "" ==> JoinEntries(entries) == Intercalate(entries)
  {
    if entries != [] {
      assert "" + entries[0] == entries[0];
      assert |entries| == 1 ==> entries[1..] == [] && Intercalate(entries) == entries[0];
      assert JoinEntries(entries) == JoinFrom(entries[0], entries[1..]);
      if entries[0] != "" && |entries| > 1 {
        JoinFromNonempty(entries[0], entries[1..]);
      }
    }
  }

  /** The tokens that a joined list splits into: its entries, but for an empty last one. */
  function Visible(entries: seq<string>): seq<string> {
    if entries != [] && entries[|entries| - 1] == "" then entries[..|entries| - 1] else entries
  }

  lemma {:induction false} SplitIntercalate(entries: seq<string>)
    requires AllFree(entries, ';')
    ensures Split(Intercalate(entries), ';') == Visible(entries)
    decreases |entries|
  {
    if |entries| == 1 {
      SplitLast(entries[0], ';');
    } else if |entries| > 1 {
      var rest := entries[1..];
      SplitIntercalate(rest);
      SplitStep(entries[0], ';', Intercalate(rest));
      assert Visible(entries) == [entries[0]] + Visible(rest);
    }
  }

  lemma {:induction false} SplitJoinShrinks(entries: seq<string>)
    requires AllFree(entries, ';')
    ensures |Split(JoinEntries(entries), ';')| <= |entries|
    decreases |entries|
  {
    if entries != [] {
      JoinIsIntercalate(entries);
      if entries[0] == "" {
        SplitJoinShrinks(entries[1..]);
      } else {
        SplitIntercalate(entries);
      }
    }
  }

  predicate Transportable(entries: seq<string>) {
    entries == []
    || (entries[0] != "" && entries[|entries| - 1] != "" && AllFree(entries, ';'))
  }

  /** Joining on the server and splitting on the client loses nothing for exactly these lists. */
  lemma JoinSplitExact(entries: seq<string>)
    ensures Split(JoinEntries(entries), ';') == entries <==> Transportable(entries)
  {
    if entries != [] {
      SplitClean(JoinEntries(entries), ';');
      JoinIsIntercalate(entries);
      if AllFree(entries, ';') {
        if entries[0] == "" {
          SplitJoinShrinks(entries[1..]);
        } else {
          SplitIntercalate(entries);
        }
      }
    }
  }

  // ---------------------------------------------------------------- concatenation of pieces

  function Concat(parts: seq<string>): string
    decreases |parts|
  {
    if parts == [] then "" else parts[0] + Concat(parts[1..])
  }
}
