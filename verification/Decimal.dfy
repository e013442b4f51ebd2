/** Decimal printing (`std::to_string`, `ostream <<`) and `std::stoi`. */
module Decimal {
  import opened CommonUtils

  type u8 = x: int | 0 <= x < 0x100
  type u16 = x: int | 0 <= x < 0x1_0000
  type u32 = x: int | 0 <= x < 0x1_0000_0000

  const INT_MAX: int := 2147483647
  const INT_MIN: int := -2147483648

  predicate IsDigit(c: char) {
    '0' <= c <= '9'
  }

  function DigitValue(c: char): (d: nat)
    ensures d < 10
  {
    if IsDigit(c) then (c as int) - ('0' as int) else 0
  }

  function DigitChar(d: nat): (c: char)
    requires d < 10
    ensures IsDigit(c) && DigitValue(c) == d
  {
    (d + ('0' as int)) as char
  }

  function Digits(n: nat): (s: string)
    ensures s != ""
  {
    if n < 10 then [DigitChar(n)] else Digits(n / 10) + [DigitChar(n % 10)]
  }

  lemma {:induction false} DigitsAreDigits(n: nat)
    ensures forall i :: 0 <= i < |Digits(n)| ==> IsDigit(Digits(n)[i])
  {
    if n >= 10 {
      DigitsAreDigits(n / 10);
    }
  }

  lemma DigitsFree(n: nat, c: char)
    requires !IsDigit(c)
    ensures c !in Digits(n)
  {
    DigitsAreDigits(n);
  }

  function ToString(n: int): string {
    if n < 0 then "-" + Digits(-n) else Digits(n)
  }

  /** `isspace` of the C locale, which `strtol` skips. */
  predicate IsSpace(c: char) {
    c == ' ' || c == '\t' || c == '\n' || c == '\r' || c == 11 as char || c == 12 as char
  }

  /** The same as ASCII codes: the space and the five controls from tab to carriage return. */
  lemma SpaceCodes(c: char)
    ensures IsSpace(c) <==> c as int == 32 || 9 <= c as int < 14
  {
  }

  function SkipSpaces(s: string, from: nat): (r: nat)
    requires from <= |s|
    ensures from <= r <= |s|
    decreases |s| - from
  {
    if from == |s| || !IsSpace(s[from]) then from else SkipSpaces(s, from + 1)
  }

  function DigitsEnd(s: string, from: nat): (r: nat)
    requires from <= |s|
    ensures from <= r <= |s|
    decreases |s| - from
  {
    if from == |s| || !IsDigit(s[from]) then from else DigitsEnd(s, from + 1)
  }

  /** The number that the digits `s[start..end]` write. */
  function ValueOf(s: string, start: nat, end: nat): nat
    requires end <= |s|
  {
    if end <= start then 0 else ValueOf(s, start, end - 1) * 10 + DigitValue(s[end - 1])
  }

  lemma {:induction false} ValueOfSame(s: string, start: nat, end: nat, t: string)
    requires start <= end <= |s| && end - start <= |t|
    requires forall i :: start <= i < end ==> s[i] == t[i - start]
    ensures ValueOf(s, start, end) == ValueOf(t, 0, end - start)
  {
    if start < end {
      ValueOfSame(s, start, end - 1, t);
    }
  }

  /** `None` outside the 32-bit int range. */
  function Ranged(v: int): Option<int> {
    if INT_MIN <= v <= INT_MAX then Some(v) else None
  }

  /** `std::stoi`: `None` where it throws (no digits, or a value outside 32-bit int). */
  function Stoi(s: string): (r: Option<int>)
    ensures r.Some? ==> INT_MIN <= r.value <= INT_MAX
  {
    var sign := SkipSpaces(s, 0);
    var negative := sign < |s| && s[sign] == '-';
    var start := if sign < |s| && (s[sign] == '-' || s[sign] == '+') then sign + 1 else sign;
    var end := DigitsEnd(s, start);
    if end == start then None
    else
      var magnitude := ValueOf(s, start, end);
      var v: int := if negative then 0 - magnitude else magnitude;
      Ranged(v)
  }

  lemma {:induction false} ValueOfDigits(n: nat)
    ensures ValueOf(Digits(n), 0, |Digits(n)|) == n
  {
    if n >= 10 {
      ValueOfDigits(n / 10);
      ValueOfSame(Digits(n), 0, |Digits(n)| - 1, Digits(n / 10));
    }
  }

  /** `Stoi` reads the digits `s[start..end]` after at most a minus sign. */
  lemma StoiReads(s: string, start: nat, end: nat)
    requires start < end <= |s| && start <= 1
    requires start == 1 ==> s[0] == '-'
    requires forall i :: start <= i < end ==> IsDigit(s[i])
    requires end < |s| ==> !IsDigit(s[end])
    ensures Stoi(s) == Ranged(if start == 1 then 0 - ValueOf(s, start, end) else ValueOf(s, start, end))
  {
    assert !IsSpace(s[0]);
    assert SkipSpaces(s, 0) == 0;
    DigitsEndAt(s, start, end);
  }

  lemma {:induction false} DigitsEndAt(s: string, from: nat, end: nat)
    requires from <= end <= |s|
    requires forall i :: from <= i < end ==> IsDigit(s[i])
    requires end < |s| ==> !IsDigit(s[end])
    ensures DigitsEnd(s, from) == end
    decreases end - from
  {
    if from < end {
      DigitsEndAt(s, from + 1, end);
    }
  }

  /** Printing and parsing are inverse exactly on the 32-bit int range, whatever non-digit follows. */
  lemma StoiOfToString(n: int, junk: string)
    requires junk == "" || !IsDigit(junk[0])
    ensures Stoi(ToString(n) + junk) == Ranged(n)
  {
    var k: nat := if n < 0 then -n else n;
    var s := ToString(n) + junk;
    var start := if n < 0 then 1 else 0;
    var end := |ToString(n)|;
    DigitsAreDigits(k);
    assert forall i :: start <= i < end ==> s[i] == Digits(k)[i - start];
    assert end < |s| ==> s[end] == junk[0];
    StoiReads(s, start, end);
    ValueOfSame(s, start, end, Digits(k));
    ValueOfDigits(k);
  }

  /** Another way to write a number: blanks, an explicit plus, leading zeros, and anything behind it but a digit. */
  datatype Spelling = Spelling(blanks: string, plus: bool, zeros: nat, junk: string)

  predicate CanSpell(w: Spelling) {
    (forall i :: 0 <= i < |w.blanks| ==> IsSpace(w.blanks[i])) && (w.junk == "" || !IsDigit(w.junk[0]))
  }

  function Zeros(n: nat): (s: string)
    ensures |s| == n && forall i :: 0 <= i < n ==> s[i] == '0'
  {
    seq(n, (i: nat) => '0')
  }

  function SignOf(n: int, plus: bool): string {
    if n < 0 then "-" else if plus then "+" else ""
  }

  function Spell(n: int, w: Spelling): string {
    w.blanks + SignOf(n, w.plus) + (Zeros(w.zeros) + Digits(if n < 0 then -n else n)) + w.junk
  }

  lemma {:induction false} SkipSpacesAt(s: string, from: nat, end: nat)
    requires from <= end <= |s|
    requires (forall i :: from <= i < end ==> IsSpace(s[i])) && (end < |s| ==> !IsSpace(s[end]))
    ensures SkipSpaces(s, from) == end
    decreases end - from
  {
    if from < end {
      SkipSpacesAt(s, from + 1, end);
    }
  }

  lemma {:induction false} LeadingZeros(zeros: nat, t: string, end: nat)
    requires end <= zeros + |t|
    ensures ValueOf(Zeros(zeros) + t, 0, end) == if end <= zeros then 0 else ValueOf(t, 0, end - zeros)
  {
    if end > 0 {
      LeadingZeros(zeros, t, end - 1);
    }
  }

  /** `stoi` in terms of where the sign, the digits and their end are. */
  lemma StoiAt(s: string, sign: nat, start: nat, end: nat)
    requires sign <= start < end <= |s| && SkipSpaces(s, 0) == sign && DigitsEnd(s, start) == end
    requires start == if s[sign] == '-' || s[sign] == '+' then sign + 1 else sign
    ensures Stoi(s) == Ranged(if s[sign] == '-' then 0 - ValueOf(s, start, end) else ValueOf(s, start, end))
  {
    hide SkipSpaces, DigitsEnd, ValueOf;
  }

  lemma PartsAt(blanks: string, sign: string, body: string, junk: string)
    requires body != ""
    ensures var s := blanks + sign + body + junk;
            var start, end := |blanks| + |sign|, |blanks| + |sign| + |body|;
            (forall i :: 0 <= i < |blanks| ==> s[i] == blanks[i])
            && s[|blanks|] == (if sign == "" then body[0] else sign[0])
            && (forall i :: start <= i < end ==> s[i] == body[i - start])
            && (end < |s| ==> junk != "" && s[end] == junk[0])
  {
  }

  /** `stoi` of a text that is blanks, a sign and a body of digits, with no digit behind. */
  lemma StoiParts(blanks: string, sign: string, body: string, junk: string)
    requires forall i :: 0 <= i < |blanks| ==> IsSpace(blanks[i])
    requires sign == "" || sign == "-" || sign == "+"
    requires body != "" && (forall i :: 0 <= i < |body| ==> IsDigit(body[i])) && (junk == "" || !IsDigit(junk[0]))
    ensures var v := ValueOf(body, 0, |body|);
            Stoi(blanks + sign + body + junk) == Ranged(if sign == "-" then 0 - v else v)
  {
    hide Stoi, SkipSpaces, DigitsEnd, ValueOf, Ranged;
    var s := blanks + sign + body + junk;
    var start := |blanks| + |sign|;
    var end := start + |body|;
    PartsAt(blanks, sign, body, junk);
    SkipSpacesAt(s, 0, |blanks|);
    DigitsEndAt(s, start, end);
    ValueOfSame(s, start, end, body);
    StoiAt(s, |blanks|, start, end);
  }

  /** A text on which `stoi` throws for want of digits: blanks, at most one sign, and then no digit. */
  predicate DigitsMissing(s: string, blanks: string, sign: string, rest: string) {
    s == blanks + sign + rest && (forall i :: 0 <= i < |blanks| ==> IsSpace(blanks[i]))
    && (sign == "" || sign == "-" || sign == "+")
    && (rest != "" ==> !IsDigit(rest[0]) && (sign == "" ==> !IsSpace(rest[0]) && rest[0] !in {'-', '+'}))
  }

  ghost predicate NoNumber(s: string) {
    exists blanks, sign, rest :: DigitsMissing(s, blanks, sign, rest)
  }

  lemma RefusedAt(s: string, sign: nat, start: nat)
    requires sign <= start <= |s| && SkipSpaces(s, 0) == sign && DigitsEnd(s, start) == start
    requires start == if sign < |s| && (s[sign] == '-' || s[sign] == '+') then sign + 1 else sign
    ensures Stoi(s) == None
  {
    hide SkipSpaces, DigitsEnd, ValueOf;
  }

  /** Where the scan for digits begins. */
  function DigitsStart(s: string): (start: nat)
    ensures start <= |s|
  {
    var sign := SkipSpaces(s, 0);
    if sign < |s| && (s[sign] == '-' || s[sign] == '+') then sign + 1 else sign
  }

  lemma StartsWithoutDigit(s: string, blanks: string, sign: string, rest: string)
    requires DigitsMissing(s, blanks, sign, rest)
    ensures SkipSpaces(s, 0) == |blanks| && DigitsStart(s) == |blanks| + |sign|
    ensures DigitsEnd(s, DigitsStart(s)) == DigitsStart(s)
  {
    hide SkipSpaces, DigitsEnd;
    var start := |blanks| + |sign|;
    assert forall i :: 0 <= i < |blanks| ==> s[i] == blanks[i];
    assert sign != "" ==> s[|blanks|] == sign[0];
    assert rest != "" ==> s[start] == rest[0];
    SkipSpacesAt(s, 0, |blanks|);
    DigitsEndAt(s, start, start);
  }

  lemma StoiRefuses(s: string, blanks: string, sign: string, rest: string)
    requires DigitsMissing(s, blanks, sign, rest)
    ensures Stoi(s) == None
  {
    hide Stoi, SkipSpaces, DigitsEnd, DigitsMissing;
    StartsWithoutDigit(s, blanks, sign, rest);
    RefusedAt(s, SkipSpaces(s, 0), DigitsStart(s));
  }

  lemma NoNumberRefused(s: string)
    requires NoNumber(s)
    ensures Stoi(s) == None
  {
    hide Stoi, DigitsMissing;
    var blanks, sign, rest :| DigitsMissing(s, blanks, sign, rest);
    StoiRefuses(s, blanks, sign, rest);
  }

  lemma {:induction false} SpacesSkipped(s: string, from: nat)
    requires from <= |s|
    ensures forall i :: from <= i < SkipSpaces(s, from) ==> IsSpace(s[i])
    ensures SkipSpaces(s, from) < |s| ==> !IsSpace(s[SkipSpaces(s, from)])
    decreases |s| - from
  {
    if from < |s| && IsSpace(s[from]) {
      SpacesSkipped(s, from + 1);
    }
  }

  lemma {:induction false} DigitsTaken(s: string, from: nat)
    requires from <= |s|
    ensures forall i :: from <= i < DigitsEnd(s, from) ==> IsDigit(s[i])
    ensures DigitsEnd(s, from) < |s| ==> !IsDigit(s[DigitsEnd(s, from)])
    decreases |s| - from
  {
    if from < |s| && IsDigit(s[from]) {
      DigitsTaken(s, from + 1);
    }
  }

  /** Blanks, sign, digits and rest of a text, cut where `stoi` cuts it. */
  lemma StoiParsed(s: string) returns (blanks: string, sign: string, body: string, rest: string)
    ensures s == blanks + sign + body + rest && (forall i :: 0 <= i < |blanks| ==> IsSpace(blanks[i]))
    ensures (sign == "" || sign == "-" || sign == "+") && forall i :: 0 <= i < |body| ==> IsDigit(body[i])
    ensures rest != "" ==> !IsDigit(rest[0])
    ensures body == "" ==> DigitsMissing(s, blanks, sign, rest)
    ensures body == "" <==> DigitsEnd(s, DigitsStart(s)) == DigitsStart(s)
  {
    hide SkipSpaces, DigitsEnd, IsDigit, IsSpace;
    var at, start := SkipSpaces(s, 0), DigitsStart(s);
    var end := DigitsEnd(s, start);
    SpacesSkipped(s, 0);
    DigitsTaken(s, start);
    blanks, sign, body, rest := s[..at], s[at..start], s[start..end], s[end..];
    assert s == blanks + sign + body + rest;
    assert forall i :: 0 <= i < |body| ==> body[i] == s[start + i];
    assert forall i :: 0 <= i < |blanks| ==> blanks[i] == s[i];
    assert start == at + 1 ==> sign == [s[at]];
    assert body == "" ==> s == blanks + sign + rest;
  }

  lemma NoNumberExactly(s: string)
    ensures NoNumber(s) <==> DigitsEnd(s, DigitsStart(s)) == DigitsStart(s)
  {
    hide DigitsMissing, DigitsStart, DigitsEnd;
    if NoNumber(s) {
      var blanks, sign, rest :| DigitsMissing(s, blanks, sign, rest);
      StartsWithoutDigit(s, blanks, sign, rest);
    }
    var blanks, sign, body, rest := StoiParsed(s);
  }

  /**
    `stoi` on every text: it is blanks, at most one sign, as many digits as there are, and a rest.  Without digits it
    throws; otherwise the digits and the sign are the number, if that is a 32-bit int.
   */
  lemma StoiGrammar(s: string) returns (blanks: string, sign: string, body: string, rest: string)
    ensures s == blanks + sign + body + rest && (forall i :: 0 <= i < |blanks| ==> IsSpace(blanks[i]))
    ensures (sign == "" || sign == "-" || sign == "+") && forall i :: 0 <= i < |body| ==> IsDigit(body[i])
    ensures rest != "" ==> !IsDigit(rest[0])
    ensures body == "" <==> NoNumber(s)
    ensures Stoi(s) == if body == "" then None
                       else Ranged(if sign == "-" then 0 - ValueOf(body, 0, |body|) else ValueOf(body, 0, |body|))
  {
    hide Stoi, DigitsStart, DigitsEnd, ValueOf, Ranged, DigitsMissing, IsSpace, IsDigit, NoNumber;
    blanks, sign, body, rest := StoiParsed(s);
    NoNumberExactly(s);
    if body == "" {
      StoiRefuses(s, blanks, sign, rest);
    } else {
      StoiParts(blanks, sign, body, rest);
    }
  }

  /** Every spelling of a number is read as that number, exactly on the 32-bit int range. */
  lemma StoiOfSpelling(n: int, w: Spelling)
    requires CanSpell(w)
    ensures Stoi(Spell(n, w)) == Ranged(n)
  {
    hide Stoi;
    var k: nat := if n < 0 then -n else n;
    var body := Zeros(w.zeros) + Digits(k);
    DigitsAreDigits(k);
    LeadingZeros(w.zeros, Digits(k), |body|);
    ValueOfDigits(k);
    StoiParts(w.blanks, SignOf(n, w.plus), body, w.junk);
  }

  lemma SpellingFree(n: int, w: Spelling, c: char)
    requires CanSpell(w) && c !in w.junk && !IsSpace(c) && !IsDigit(c) && c != '-' && c != '+'
    ensures c !in Spell(n, w)
  {
    DigitsFree(if n < 0 then -n else n, c);
  }

  lemma StoiDigits(n: nat)
    ensures Stoi(Digits(n)) == Ranged(n)
  {
    StoiOfToString(n, "");
    assert ToString(n) + "" == Digits(n);
  }

  /** The number of digits printed: 10^k is the first number that needs more than k. */
  lemma DigitsLength(n: nat)
    ensures n < 0x1_0000 ==> |Digits(n)| <= 5
    ensures n < 0x1_0000_0000 ==> |Digits(n)| <= 10
  {
    assert Pow10(2) == 100 && Pow10(4) == 10000 && Pow10(5) == 100000;
    assert Pow10(7) == 10000000 && Pow10(9) == 1000000000 && Pow10(10) == 10000000000;
    if n < 0x1_0000 {
      LengthBound(n, 5);
    }
    if n < 0x1_0000_0000 {
      LengthBound(n, 10);
    }
  }

  function Pow10(k: nat): nat {
    if k == 0 then 1 else 10 * Pow10(k - 1)
  }

  lemma {:induction false} LengthBound(n: nat, k: nat)
    requires k > 0 && n < Pow10(k)
    ensures |Digits(n)| <= k
  {
    if n >= 10 {
      LengthBound(n / 10, k - 1);
    }
  }

  /** No leading zero: every proper suffix of a printed number has a smaller value. */
  lemma {:induction false} DigitsSuffixSmaller(n: nat, k: nat)
    requires 0 < k < |Digits(n)|
    ensures ValueOf(Digits(n), k, |Digits(n)|) < n
  {
    var s, init := Digits(n), Digits(n / 10);
    assert s == init + [DigitChar(n % 10)];
    if k < |init| {
      DigitsSuffixSmaller(n / 10, k);
      ValueOfSame(s, k, |init|, init[k..]);
      ValueOfSame(init, k, |init|, init[k..]);
    }
  }
}
