/** The evaluator's answer extractors and graders: the letter, integer and
    line-specification extractors look for the last answer marker in the visible
    part of an output, each with its own window and its own fallback. */
module Answers {
  import opened CText
  import opened LineSpec
  import opened Trace

  const ANSWER_MAX := 32

  /** The text after the first "</think>", or all of it. */
  function Visible(generated: string): string {
    var i := FindIn(generated, 0, |generated|, THINK_CLOSE);
    if i.Some? then generated[i.value + 8..] else generated
  }

  // ---- the answer marker ----

  function CharAt(v: string, i: nat): char { if i < |v| then v[i] else '\0' }

  function Before(v: string, i: nat): char
    requires i <= |v|
  { if i == 0 then ' ' else v[i - 1] }

  predicate LetterBoundary(before: char, after: char) { !IsAlpha(before) && !IsAlpha(after) }

  /** "answer" in any case at `p`. */
  predicate AnswerWord(v: string, p: nat)
    ensures AnswerWord(v, p) ==> p + 6 <= |v|
  {
    && p + 6 <= |v|
    && ToLower(v[p]) == 'a' && ToLower(v[p + 1]) == 'n' && ToLower(v[p + 2]) == 's'
    && ToLower(v[p + 3]) == 'w' && ToLower(v[p + 4]) == 'e' && ToLower(v[p + 5]) == 'r'
  }

  /** The word "answer" on its own, then optional white space and a colon. */
  predicate ColonMarker(v: string, p: nat) {
    && AnswerWord(v, p)
    && LetterBoundary(Before(v, p), CharAt(v, p + 6))
    && CharAt(v, SpacesEnd(v, p + 6, |v|)) == ':'
  }

  /** The last colon marker that starts before `k`. */
  function LastMarker(v: string, k: nat): (r: Option<nat>)
    requires k <= |v|
    ensures r.Some? ==> r.value < k && ColonMarker(v, r.value)
  {
    if k == 0 then None else if ColonMarker(v, k - 1) then Some(k - 1) else LastMarker(v, k - 1)
  }

  function FirstAnswerWord(v: string, p: nat): (r: Option<nat>)
    requires p <= |v|
    ensures r.Some? ==> p <= r.value && AnswerWord(v, r.value)
    decreases |v| - p
  {
    if p == |v| then None else if AnswerWord(v, p) then Some(p) else FirstAnswerWord(v, p + 1)
  }

  /** find_last_answer_marker: the last marker, else the first "answer" of any kind. */
  function AnswerMarker(v: string): (r: Option<nat>)
    ensures r.Some? ==> r.value + 6 <= |v|
  {
    var last := LastMarker(v, |v|);
    if last.Some? then last else FirstAnswerWord(v, 0)
  }

  method FindLastAnswerMarker(v: string) returns (r: Option<nat>)
    ensures r == AnswerMarker(v)
  {
    hide AnswerWord;
    var last: Option<nat> := None;
    var p := 0;
    while p < |v|
      invariant p <= |v| && last == LastMarker(v, p)
    {
      if AnswerWord(v, p) && LetterBoundary(Before(v, p), CharAt(v, p + 6)) {
        var q := SkipSpaces(v, p + 6, |v|);
        if q < |v| && v[q] == ':' {
          last := Some(p);
        }
      }
      p := p + 1;
    }
    if last.Some? {
      return last;
    }
    p := 0;
    while p < |v|
      invariant p <= |v| && FirstAnswerWord(v, 0) == FirstAnswerWord(v, p)
    {
      if AnswerWord(v, p) {
        return Some(p);
      }
      p := p + 1;
    }
    return None;
  }

  // ---- letters ----

  /** A choice letter standing alone at `p`. */
  predicate LoneLetter(v: string, p: nat, nchoices: nat)
    requires p < |v|
  {
    && 0 <= ToUpper(v[p]) as int - 'A' as int < nchoices
    && LetterBoundary(Before(v, p), CharAt(v, p + 1))
  }

  function FirstLetter(v: string, p: nat, end: nat, nchoices: nat): Option<char>
    requires p <= end <= |v|
    decreases end - p
  {
    if p == end then None
    else if LoneLetter(v, p, nchoices) then Some(ToUpper(v[p]))
    else FirstLetter(v, p + 1, end, nchoices)
  }

  function LastLetter(v: string, k: nat, nchoices: nat): char
    requires k <= |v|
  {
    if k == 0 then '?' else if LoneLetter(v, k - 1, nchoices) then ToUpper(v[k - 1]) else LastLetter(v, k - 1, nchoices)
  }

  /** Where a window of `limit` characters from `p` ends. */
  function Window(v: string, p: nat, limit: nat): nat { if |v| - p > limit then p + limit else |v| }

  function LetterAnswer(generated: string, nchoices: nat): char {
    var v := Visible(generated);
    var marker := AnswerMarker(v);
    var letter := if nchoices > 0 && marker.Some? then
                    FirstLetter(v, marker.value, Window(v, marker.value, 96), nchoices)
                  else None;
    if nchoices == 0 then '?' else if letter.Some? then letter.value else LastLetter(v, |v|, nchoices)
  }

  method FindVisible(generated: string) returns (v: string)
    ensures v == Visible(generated)
  {
    var i := BoundedStrstr(generated, 0, |generated|, THINK_CLOSE);
    v := if i.Some? then generated[i.value + 8..] else generated;
  }

  method FindAnswerLetter(generated: string, nchoices: nat) returns (c: char)
    ensures c == LetterAnswer(generated, nchoices)
  {
    hide AnswerMarker, Visible, LoneLetter;
    if nchoices == 0 {
      return '?';
    }
    var v := FindVisible(generated);
    var answer := FindLastAnswerMarker(v);
    if answer.Some? {
      var end := if |v| - answer.value > 96 then answer.value + 96 else |v|;
      var p := answer.value;
      while p < end
        invariant answer.value <= p <= end
        invariant FirstLetter(v, answer.value, end, nchoices) == FirstLetter(v, p, end, nchoices)
      {
        if LoneLetter(v, p, nchoices) {
          return ToUpper(v[p]);
        }
        p := p + 1;
      }
    }
    var k: nat := |v|;
    while k > 0
      invariant k <= |v| && LastLetter(v, |v|, nchoices) == LastLetter(v, k, nchoices)
    {
      if LoneLetter(v, k - 1, nchoices) {
        return ToUpper(v[k - 1]);
      }
      k := k - 1;
    }
    return '?';
  }

  // ---- integers ----

  /** Leading zeros dropped, the last digit kept. */
  function StripZeros(s: string): (r: string)
    ensures |r| <= |s| && (s != "" ==> r != "")
  {
    if |s| > 1 && s[0] == '0' then StripZeros(s[1..]) else s
  }

  /** normalize_integer_answer into a buffer of `dstlen` characters. */
  function NormalizeInteger(s: string, dstlen: nat): string {
    Held(StripZeros(s), dstlen)
  }

  method NormalizeIntegerAnswer(s: string, dstlen: nat) returns (dst: string)
    ensures dst == NormalizeInteger(s, dstlen)
  {
    var p := 0;
    while |s| - p > 1 && s[p] == '0'
      invariant p <= |s| && StripZeros(s) == StripZeros(s[p..])
    {
      assert s[p..][1..] == s[p + 1..];
      p := p + 1;
    }
    if dstlen == 0 {
      return "";
    }
    var n := if |s| - p < dstlen - 1 then |s| - p else dstlen - 1;
    dst := s[p..][..n];
  }

  /** scan_first_integer over [p, end). */
  function FirstInteger(v: string, p: nat, end: nat, dstlen: nat): Option<string>
    requires p <= end <= |v|
    decreases end - p
  {
    if p == end then None
    else if IsDigit(v[p]) then Some(NormalizeInteger(v[p..DigitsEnd(v, p, end)], dstlen))
    else FirstInteger(v, p + 1, end, dstlen)
  }

  /** The last run of digits at or after `p`, else `last`. */
  function LastRun(v: string, p: nat, last: Option<(nat, nat)>): (r: Option<(nat, nat)>)
    requires p <= |v| && (last.Some? ==> last.value.0 < last.value.1 <= |v|)
    ensures r.Some? ==> r.value.0 < r.value.1 <= |v|
    decreases |v| - p
  {
    if p == |v| then last
    else if IsDigit(v[p]) then
      var q := DigitsEnd(v, p, |v|);
      LastRun(v, q, Some((p, q)))
    else LastRun(v, p + 1, last)
  }

  function IntegerAnswer(generated: string, dstlen: nat): string
  {
    var v := Visible(generated);
    var marker := AnswerMarker(v);
    var first := if marker.Some? then FirstInteger(v, marker.value, Window(v, marker.value, 160), dstlen) else None;
    var run := LastRun(v, 0, None);
    if first.Some? then first.value
    else if run.Some? then NormalizeInteger(v[run.value.0..run.value.1], dstlen)
    else Held("?", dstlen)
  }

  method ScanDigits(v: string, p: nat, end: nat) returns (q: nat)
    requires p <= end <= |v|
    ensures q == DigitsEnd(v, p, end)
  {
    q := p;
    while q < end && IsDigit(v[q])
      invariant p <= q <= end && DigitsEnd(v, p, end) == DigitsEnd(v, q, end)
    {
      q := q + 1;
    }
  }

  method ScanFirstInteger(v: string, start: nat, end: nat, dstlen: nat) returns (r: Option<string>)
    requires start <= end <= |v|
    ensures r == FirstInteger(v, start, end, dstlen)
  {
    var p := start;
    while p < end
      invariant start <= p <= end
      invariant FirstInteger(v, start, end, dstlen) == FirstInteger(v, p, end, dstlen)
    {
      if IsDigit(v[p]) {
        var q := ScanDigits(v, p, end);
        var dst := NormalizeIntegerAnswer(v[p..q], dstlen);
        return Some(dst);
      }
      p := p + 1;
    }
    return None;
  }

  lemma {:induction false} NoRoomForFirst(v: string, p: nat, end: nat)
    requires p <= end <= |v|
    ensures FirstInteger(v, p, end, 0).Some? ==> FirstInteger(v, p, end, 0).value == ""
    decreases end - p
  {
    if p < end {
      NoRoomForFirst(v, p + 1, end);
    }
  }

  lemma {:induction false} NoRoomForInteger(generated: string)
    ensures IntegerAnswer(generated, 0) == ""
  {
    var v := Visible(generated);
    var marker := AnswerMarker(v);
    if marker.Some? {
      NoRoomForFirst(v, marker.value, Window(v, marker.value, 160));
    }
  }

  method FindIntegerAnswer(generated: string, dstlen: nat) returns (dst: string)
    ensures dst == IntegerAnswer(generated, dstlen)
  {
    hide AnswerMarker, Visible, FirstInteger, NormalizeInteger, DigitsEnd;
    if dstlen == 0 {
      NoRoomForInteger(generated);
      return "";
    }
    dst := Held("?", dstlen);
    var v := FindVisible(generated);
    var answer := FindLastAnswerMarker(v);
    if answer.Some? {
      var end := if |v| - answer.value > 160 then answer.value + 160 else |v|;
      var r := ScanFirstInteger(v, answer.value, end, dstlen);
      if r.Some? {
        return r.value;
      }
    }
    var last: Option<(nat, nat)> := None;
    var p := 0;
    while p < |v|
      invariant p <= |v| && (last.Some? ==> last.value.0 < last.value.1 <= |v|)
      invariant LastRun(v, 0, None) == LastRun(v, p, last)
      decreases |v| - p
    {
      if IsDigit(v[p]) {
        var q := ScanDigits(v, p, |v|);
        last := Some((p, q));
        p := q;
      } else {
        p := p + 1;
      }
    }
    if last.Some? {
      dst := NormalizeIntegerAnswer(v[last.value.0..last.value.1], dstlen);
    }
  }

  // ---- line specifications ----

  function CompsecAnswer(generated: string, dstlen: nat): string
  {
    var v := Visible(generated);
    var marker := AnswerMarker(v);
    var spec := if marker.Some? then
                  NormalizeSpec(v, marker.value, LineEnd(v, marker.value, Window(v, marker.value, 160)), dstlen)
                else "?";
    if spec != "?" then spec else IntegerAnswer(generated, dstlen)
  }

  lemma {:induction false} NoRoomForSpec(generated: string)
    ensures CompsecAnswer(generated, 0) == ""
  {
    NoRoomForInteger(generated);
  }

  method FindCompsecAnswer(generated: string, dstlen: nat) returns (dst: string)
    ensures dst == CompsecAnswer(generated, dstlen)
  {
    hide AnswerMarker, Visible, NormalizeSpec, LineEnd;
    if dstlen == 0 {
      NoRoomForSpec(generated);
      return "";
    }
    var v := FindVisible(generated);
    var answer := FindLastAnswerMarker(v);
    if answer.Some? {
      var end := if |v| - answer.value > 160 then answer.value + 160 else |v|;
      end := LineEnd(v, answer.value, end);
      var buffer := new char[dstlen](_ => '\0');
      var n := NormalizeInto(v, answer.value, end, buffer);
      if buffer[..n] != "?" {
        return buffer[..n];
      }
    }
    dst := FindIntegerAnswer(generated, dstlen);
  }

  // ---- cases ----

  const COMPSEC := "COMPSEC"

  /** find_case_answer, into a buffer of ANSWER_MAX characters. */
  function CaseAnswer(tc: EvalCase, generated: string): string {
    if tc.choices != [] then [LetterAnswer(generated, |tc.choices|)]
    else if tc.source == COMPSEC then CompsecAnswer(generated, ANSWER_MAX)
    else IntegerAnswer(generated, ANSWER_MAX)
  }

  /** answer_matches */
  predicate AnswerMatches(tc: EvalCase, got: string) {
    if tc.choices != [] then got != "" && tc.answer != "" && got[0] == tc.answer[0]
    else if tc.source == COMPSEC then SpecMatches(tc.answer, got)
    else got == NormalizeInteger(tc.answer, ANSWER_MAX)
  }

  method GradeCase(tc: EvalCase, generated: string) returns (got: string, ok: bool)
    ensures got == CaseAnswer(tc, generated) && ok == AnswerMatches(tc, got)
  {
    hide LetterAnswer, CompsecAnswer, IntegerAnswer, SpecMatches, NormalizeInteger;
    if tc.choices != [] {
      var c := FindAnswerLetter(generated, |tc.choices|);
      got := [c];
      ok := tc.answer != "" && got[0] == tc.answer[0];
    } else if tc.source == COMPSEC {
      got := FindCompsecAnswer(generated, ANSWER_MAX);
      ok := CompsecAnswerMatches(tc.answer, got);
    } else {
      got := FindIntegerAnswer(generated, ANSWER_MAX);
      var expected := NormalizeIntegerAnswer(tc.answer, ANSWER_MAX);
      ok := got == expected;
    }
  }
}
