/** A compliant last line decides the answer in both graders, whatever text comes
    before it. */
module AnswerAgreement {
  import opened CText
  import opened LineSpec
  import opened SpecItems
  import opened SpecWindow
  import opened Answers
  import Py = PyGrader

  const ANSWER_KEY := "Answer: "

  /** A model output: earlier text ending in a line feed, the answer line, and white space. */
  function Output(pre: string, body: string, tail: string): string { pre + (ANSWER_KEY + body + tail) }

  predicate EndsLine(pre: string) { pre != "" && pre[|pre| - 1] == '\n' }

  predicate Blank(tail: string) { forall i :: 0 <= i < |tail| ==> IsSpace(tail[i]) }

  /** No tag and no word of two letters. */
  predicate Quiet(body: string) {
    '<' !in body && forall i :: 0 <= i < |body| - 1 ==> !IsAlpha(body[i]) || !IsAlpha(body[i + 1])
  }

  /** `v` holds an answer line at `m`, and nothing but white space after it. */
  predicate AnswerLine(v: string, m: nat, body: string) {
    && 0 < m && m + 8 + |body| <= |v| && v[m - 1] == '\n'
    && At(v, m, ANSWER_KEY) && At(v, m + 8, body)
    && (forall i :: m + 8 + |body| <= i < |v| ==> IsSpace(v[i]))
  }

  // ---- the visible part keeps the answer line ----

  lemma {:induction false} TagBeforeLine(pre: string, rest: string, i: nat)
    requires EndsLine(pre) && '<' !in rest && At(pre + rest, i, THINK_CLOSE)
    ensures i + 8 < |pre|
  {
    var text := pre + rest;
    AtIndex(text, i, THINK_CLOSE, 0);
    forall k | |pre| <= k < |text|
      ensures text[k] != '<'
    {
      assert text[k] == rest[k - |pre|];
    }
    if |pre| - 1 < i + 8 {
      AtIndex(text, i, THINK_CLOSE, |pre| - 1 - i);
    }
  }

  lemma {:induction false} VisibleLine(pre: string, body: string, tail: string) returns (m: nat)
    requires EndsLine(pre) && Quiet(body) && Blank(tail)
    ensures Visible(Output(pre, body, tail)) == Py.AnswerRegion(Output(pre, body, tail))
    ensures AnswerLine(Visible(Output(pre, body, tail)), m, body)
  {
    var rest := ANSWER_KEY + body + tail;
    var text := pre + rest;
    assert '<' !in rest;
    var i := FindIn(text, 0, |text|, THINK_CLOSE);
    FindInFirst(text, 0, |text|, THINK_CLOSE);
    var cut := if i.Some? then i.value + 8 else 0;
    if i.Some? {
      TagBeforeLine(pre, rest, i.value);
    }
    var head := pre[cut..];
    m := |head|;
    hide FindIn;
    assert text[cut..] == head + rest;
    LineIn(head, body, tail);
  }

  lemma {:induction false} LineIn(head: string, body: string, tail: string)
    requires EndsLine(head) && Blank(tail)
    ensures AnswerLine(head + (ANSWER_KEY + body + tail), |head|, body)
  {
    var v := head + (ANSWER_KEY + body + tail);
    assert v == head + ANSWER_KEY + (body + tail) && v == (head + ANSWER_KEY) + body + tail;
    AtConcat(head, ANSWER_KEY, body + tail);
    AtConcat(head + ANSWER_KEY, body, tail);
    forall i | |head| + 8 + |body| <= i < |v|
      ensures IsSpace(v[i])
    {
      assert v[i] == tail[i - |head| - 8 - |body|];
    }
  }

  // ---- both find the last marker ----

  lemma {:induction false} KeyChars(v: string, m: nat)
    requires At(v, m, ANSWER_KEY)
    ensures m + 8 <= |v|
    ensures v[m] == 'A' && v[m + 1] == 'n' && v[m + 2] == 's' && v[m + 3] == 'w' && v[m + 4] == 'e'
            && v[m + 5] == 'r' && v[m + 6] == ':' && v[m + 7] == ' '
  {
    var k := v[m..m + 8];
    assert k == ANSWER_KEY;
    assert v[m] == k[0] && v[m + 1] == k[1] && v[m + 2] == k[2] && v[m + 3] == k[3] && v[m + 4] == k[4]
        && v[m + 5] == k[5] && v[m + 6] == k[6] && v[m + 7] == k[7];
  }

  /** After the answer line starts there is no further "answer". */
  lemma {:induction false} NoLaterWord(v: string, m: nat, body: string, p: nat)
    requires AnswerLine(v, m, body) && Quiet(body) && m < p
    ensures !AnswerWord(v, p)
  {
    KeyChars(v, m);
    if m + 8 <= p && p + 6 <= |v| {
      if p + 1 < m + 8 + |body| {
        AtIndex(v, m + 8, body, p - m - 8);
        AtIndex(v, m + 8, body, p + 1 - m - 8);
      }
    }
  }

  lemma {:induction false} LastMarkerIs(v: string, m: nat, body: string, k: nat)
    requires AnswerLine(v, m, body) && Quiet(body) && m < k <= |v|
    ensures LastMarker(v, k) == Some(m)
    decreases k
  {
    if k == m + 1 {
      KeyChars(v, m);
      SpacesEndAt(v, m + 6, |v|, m + 6);
    } else {
      NoLaterWord(v, m, body, k - 1);
      LastMarkerIs(v, m, body, k - 1);
    }
  }

  lemma {:induction false} PySpacesStop(v: string, p: nat, e: nat)
    requires p <= e < |v| && !Py.PySpace(v[e])
    ensures Py.PySpacesEnd(v, p) <= e
    decreases e - p
  {
    if p < e && Py.PySpace(v[p]) {
      PySpacesStop(v, p + 1, e);
    }
  }

  /** A match that starts before the line ends before it. */
  lemma {:induction false} MatchBeforeLine(v: string, m: nat, body: string, p: nat)
    requires AnswerLine(v, m, body) && p < m && Py.ColonMarkerAt(v, p)
    ensures Py.MarkerEnd(v, p) <= m
  {
    KeyChars(v, m);
    assert m - 1 != p && m - 1 != p + 1 && m - 1 != p + 2 && m - 1 != p + 3 && m - 1 != p + 4 && m - 1 != p + 5;
    PySpacesStop(v, p + 6, m);
  }

  lemma {:induction false} MatchesReachLine(v: string, m: nat, body: string, p: nat, last: Option<nat>)
    requires AnswerLine(v, m, body) && Quiet(body) && p <= m
    ensures Py.LastMatch(v, p, last) == Some(m)
    decreases m - p
  {
    if p < m {
      if Py.ColonMarkerAt(v, p) {
        MatchBeforeLine(v, m, body, p);
        MatchesReachLine(v, m, body, Py.MarkerEnd(v, p), Some(p));
      } else {
        MatchesReachLine(v, m, body, p + 1, last);
      }
    } else {
      KeyChars(v, m);
      assert Py.PySpacesEnd(v, m + 6) == m + 6;
      NoMatchesAfter(v, m, body, m + 7);
    }
  }

  lemma {:induction false} NoMatchesAfter(v: string, m: nat, body: string, p: nat)
    requires AnswerLine(v, m, body) && Quiet(body) && m < p <= |v|
    ensures Py.LastMatch(v, p, Some(m)) == Some(m)
    decreases |v| - p
  {
    if p < |v| {
      NoLaterWord(v, m, body, p);
      assert !Py.AnswerAt(v, p);
      NoMatchesAfter(v, m, body, p + 1);
    }
  }

  /** Both graders look at the same answer line. */
  lemma {:induction false} MarkersFound(v: string, m: nat, body: string)
    requires AnswerLine(v, m, body) && Quiet(body)
    ensures AnswerMarker(v) == Some(m) && Py.LastColonMarker(v) == Some(m)
  {
    LastMarkerIs(v, m, body, |v|);
    MatchesReachLine(v, m, body, 0, None);
  }

  // ---- what the runner takes from the line ----

  /** Where the runner's value span stops: at a line break or at its limit. */
  function SpanEnd(v: string, m: nat, limit: nat): nat
    requires m + 7 <= |v|
  { Py.FirstBreak(v, m + 7, if m + 7 + limit < |v| then m + 7 + limit else |v|) }

  lemma {:induction false} BreakAfter(v: string, p: nat, q: nat, end: nat)
    requires p <= q <= end <= |v| && forall i :: p <= i < q ==> !Py.PyLineBreak(v[i])
    ensures Py.FirstBreak(v, p, end) >= q
    decreases q - p
  {
    if p < q {
      BreakAfter(v, p + 1, q, end);
    }
  }

  lemma {:induction false} ValueSpan(v: string, m: nat, body: string, limit: nat)
    requires AnswerLine(v, m, body) && limit > 0
    requires forall i :: 0 <= i < |body| ==> !Py.PyLineBreak(body[i])
    ensures var e := SpanEnd(v, m, limit);
            m + 8 + |First(body, limit - 1)| <= e <= |v| && e <= m + 7 + limit
            && Py.MarkerValueSpan(v, m, limit) == v[m + 7..e]
  {
    hide FindIn, Py.FirstBreak, At, Py.PyLineBreak;
    ColonFound(v, m);
    var n := |First(body, limit - 1)|;
    forall i | m + 7 <= i < m + 8 + n
      ensures !Py.PyLineBreak(v[i])
    {
      KeyChars(v, m);
      if i > m + 7 {
        AtIndex(v, m + 8, body, i - m - 8);
      } else {
        BlankNoBreak();
      }
    }
    BreakAfter(v, m + 7, m + 8 + n, if m + 7 + limit < |v| then m + 7 + limit else |v|);
  }

  lemma {:induction false} BlankNoBreak()
    ensures !Py.PyLineBreak(' ')
  {
  }

  lemma {:induction false} ColonFound(v: string, m: nat)
    requires At(v, m, ANSWER_KEY)
    ensures FindIn(v, m, |v|, ":") == Some(m + 6)
  {
    KeyChars(v, m);
    hide FindIn;
    FindInFirst(v, m, |v|, ":");
    assert At(v, m + 6, ":");
    forall j: nat | m <= j < m + 6
      ensures !At(v, j, ":")
    {
      NotAt(v, j, ":", 0);
    }
  }

  // ---- letters ----

  predicate Choice(c: char, nchoices: nat) { 0 <= ToUpper(c) as int - 'A' as int < nchoices <= 26 }

  lemma {:induction false} SkipLetters(v: string, p: nat, q: nat, end: nat, nchoices: nat)
    requires p <= q <= end <= |v| && forall i :: p <= i < q ==> !LoneLetter(v, i, nchoices)
    ensures FirstLetter(v, p, end, nchoices) == FirstLetter(v, q, end, nchoices)
    decreases q - p
  {
    if p < q {
      SkipLetters(v, p + 1, q, end, nchoices);
    }
  }

  lemma {:induction false} LetterRead(v: string, m: nat, c: char, nchoices: nat)
    requires AnswerLine(v, m, [c]) && Choice(c, nchoices)
    ensures FirstLetter(v, m, Window(v, m, 96), nchoices) == Some(ToUpper(c))
  {
    KeyChars(v, m);
    AtIndex(v, m + 8, [c], 0);
    assert !IsAlpha(CharAt(v, m + 9));
    forall i | m <= i < m + 8
      ensures !LoneLetter(v, i, nchoices)
    {
      assert i == m || i == m + 1 || i == m + 2 || i == m + 3 || i == m + 4 || i == m + 5 || i == m + 6 || i == m + 7;
    }
    SkipLetters(v, m, m + 8, Window(v, m, 96), nchoices);
  }

  lemma {:induction false} PyLetterRead(v: string, m: nat, c: char, nchoices: nat)
    requires AnswerLine(v, m, [c]) && Choice(c, nchoices)
    ensures var letters := Py.LetterMatches(Py.Upper(Py.MarkerValueSpan(v, m, 96)), 0, nchoices);
            letters != [] && letters[0] == ToUpper(c)
  {
    KeyChars(v, m);
    AtIndex(v, m + 8, [c], 0);
    ValueSpan(v, m, [c], 96);
    var e := SpanEnd(v, m, 96);
    var span := v[m + 7..e];
    hide Py.MarkerValueSpan;
    var u := Py.Upper(span);
    assert u[0] == ' ' && u[1] == ToUpper(c) && (|u| > 2 ==> u[2] == ToUpper(v[m + 9]));
    assert Py.LetterAt(u, 1);
    assert Py.LetterMatches(u, 0, nchoices) == Py.LetterMatches(u, 1, nchoices);
  }

  /** "Answer: L" decides a multiple-choice case in both graders. */
  lemma {:induction false} LetterLineDecides(pre: string, c: char, tail: string, nchoices: nat)
    requires EndsLine(pre) && Blank(tail) && Choice(c, nchoices)
    ensures LetterAnswer(Output(pre, [c], tail), nchoices) == ToUpper(c)
    ensures Py.LetterAnswer(Output(pre, [c], tail), nchoices) == Some([ToUpper(c)])
  {
    var text := Output(pre, [c], tail);
    var m := VisibleLine(pre, [c], tail);
    var v := Visible(text);
    MarkersFound(v, m, [c]);
    LetterRead(v, m, c, nchoices);
    PyLetterRead(v, m, c, nchoices);
    hide Visible, Py.AnswerRegion, AnswerMarker, Py.LastColonMarker, Output, FirstLetter, Py.LetterMatches, Py.Upper, Py.MarkerValueSpan;
  }

  // ---- integers ----

  lemma {:induction false} DecOfValue(s: string)
    requires s != "" && AllDigits(s) && (|s| == 1 || s[0] != '0')
    ensures Dec(Value(s)) == s && (s[0] != '0' ==> Value(s) > 0)
  {
    var k := |s| - 1;
    if k > 0 {
      DecOfValue(s[..k]);
      var high, low := Value(s[..k]), DigitOf(s[k]);
      assert high >= 1 && (high * 10 + low) / 10 == high && (high * 10 + low) % 10 == low;
      assert s == s[..k] + [s[k]];
    } else {
      assert Value(s[..0]) == 0;
    }
  }

  lemma {:induction false} ValueDropsZero(s: string)
    requires s != "" && AllDigits(s) && s[0] == '0'
    ensures Value(s) == Value(s[1..])
    decreases |s|
  {
    var k := |s| - 1;
    if k > 0 {
      ValueDropsZero(s[..k]);
      assert s[..k][1..] == s[1..][..k - 1];
    } else {
      assert Value(s[..0]) == 0;
    }
  }

  /** The evaluator's stripped digits are the runner's str(int(digits)). */
  lemma {:induction false} StripIsDec(s: string)
    requires s != "" && AllDigits(s)
    ensures StripZeros(s) == Dec(Value(s))
  {
    if |s| > 1 && s[0] == '0' {
      ValueDropsZero(s);
      StripIsDec(s[1..]);
    } else {
      DecOfValue(s);
    }
  }

  lemma {:induction false} SkipToDigit(v: string, p: nat, q: nat, end: nat, dstlen: nat)
    requires p <= q <= end <= |v| && dstlen > 0 && forall i :: p <= i < q ==> !IsDigit(v[i])
    ensures FirstInteger(v, p, end, dstlen) == FirstInteger(v, q, end, dstlen)
    decreases q - p
  {
    if p < q {
      SkipToDigit(v, p + 1, q, end, dstlen);
    }
  }

  /** What the evaluator's window of 160 characters holds of the line. */
  lemma {:induction false} WindowParts(v: string, m: nat, body: string)
    requires AnswerLine(v, m, body)
    ensures var b, end := First(body, 152), Window(v, m, 160);
            At(v, m + 8, b) && m + 8 + |b| <= end <= |v| && end <= m + 160
            && forall i :: m + 8 + |b| <= i < end ==> IsSpace(v[i])
  {
    SliceAt(v, m + 8, body);
    assert v[m + 8..m + 8 + |First(body, 152)|] == First(body, 152);
  }

  lemma {:induction false} IntegerRead(v: string, m: nat, digits: string)
    requires AnswerLine(v, m, digits) && digits != "" && AllDigits(digits)
    ensures FirstInteger(v, m, Window(v, m, 160), ANSWER_MAX) == Some(NormalizeInteger(First(digits, 152), ANSWER_MAX))
  {
    KeyChars(v, m);
    AtIndex(v, m + 8, digits, 0);
    WindowParts(v, m, digits);
    var end, seen := Window(v, m, 160), First(digits, 152);
    SkipToDigit(v, m, m + 8, end, ANSWER_MAX);
    hide DigitsEnd, AnswerLine;
    DigitsEndIs(v, m + 8, end, seen);
    SliceAt(v, m + 8, seen);
  }

  lemma {:induction false} PyIntegerRead(v: string, m: nat, digits: string)
    requires AnswerLine(v, m, digits) && digits != "" && AllDigits(digits)
    ensures Py.FirstInteger(Py.MarkerValueSpan(v, m, 160)) == Some(Dec(Value(First(digits, 159))))
  {
    SpanParts(v, m, digits, 160);
    assert AllDigits(First(digits, 159)) && First(digits, 159) != "";
    hide Py.MarkerValueSpan, At, SpanEnd, Py.FirstInteger, AllDigits, First;
    SpanInteger(v[m + 7..SpanEnd(v, m, 160)], First(digits, 159));
  }

  /** The value span is a blank, the answer as far as the span reaches, and white space. */
  lemma {:induction false} SpanParts(v: string, m: nat, body: string, limit: nat)
    requires AnswerLine(v, m, body) && limit > 0
    requires forall i :: 0 <= i < |body| ==> !Py.PyLineBreak(body[i])
    ensures var e, b := SpanEnd(v, m, limit), First(body, limit - 1);
            m + 8 + |b| <= e <= |v| && Py.MarkerValueSpan(v, m, limit) == v[m + 7..e]
            && var span := v[m + 7..e];
               span[0] == ' ' && At(span, 1, b) && forall i :: 1 + |b| <= i < |span| ==> IsSpace(span[i])
  {
    hide Py.MarkerValueSpan, SpanEnd, Py.PyLineBreak;
    KeyChars(v, m);
    ValueSpan(v, m, body, limit);
    var e, b := SpanEnd(v, m, limit), First(body, limit - 1);
    var span := v[m + 7..e];
    SliceAt(v, m + 8, body);
    assert b == body[..|b|];
    assert span[1..1 + |b|] == v[m + 8..m + 8 + |b|];
    assert v[m + 8..m + 8 + |body|][..|b|] == v[m + 8..m + 8 + |b|];
    forall i | 1 + |b| <= i < |span|
      ensures IsSpace(span[i])
    {
      assert span[i] == v[m + 7 + i];
    }
  }

  lemma {:induction false} SpanInteger(span: string, digits: string)
    requires |span| > 0 && span[0] == ' ' && At(span, 1, digits) && digits != "" && AllDigits(digits)
    requires forall i :: 1 + |digits| <= i < |span| ==> IsSpace(span[i])
    ensures Py.FirstInteger(span) == Some(Dec(Value(digits)))
  {
    AtIndex(span, 1, digits, 0);
    SliceAt(span, 1, digits);
    assert Py.FirstDigit(span, 0) == Py.FirstDigit(span, 1) == 1;
    hide DigitsEnd, Value, Dec, At;
    DigitsEndIs(span, 1, |span|, digits);
  }

  lemma {:induction false} DigitsQuiet(digits: string)
    requires AllDigits(digits)
    ensures Quiet(digits)
  {
    assert forall i :: 0 <= i < |digits| ==> IsDigit(digits[i]);
  }

  predicate AllZero(digits: string) { forall i :: 0 <= i < |digits| ==> digits[i] == '0' }

  lemma {:induction false} ZeroIs(digits: string)
    requires digits != "" && AllDigits(digits)
    ensures AllZero(digits) <==> StripZeros(digits) == "0"
  {
    if |digits| > 1 && digits[0] == '0' {
      ZeroIs(digits[1..]);
      assert digits == ['0'] + digits[1..];
    }
  }

  /** More digits after a number that is not zero make the stripped number longer. */
  lemma {:induction false} StripLonger(a: string, more: string)
    requires a != "" && AllDigits(a) && AllDigits(more) && !AllZero(a)
    ensures StripZeros(a + more) == StripZeros(a) + more
    decreases |a|
  {
    if |a| > 1 && a[0] == '0' {
      assert (a + more)[1..] == a[1..] + more;
      assert AllZero(a[1..]) ==> AllZero(a);
      StripLonger(a[1..], more);
    } else {
      assert a[0] != '0';
    }
  }

  /** "Answer: digits" decides an integer case in both graders. Both drop leading zeros;
      the evaluator sees 152 digits and keeps 31, the runner sees 159. */
  lemma {:induction false} IntegerLineDecides(pre: string, digits: string, tail: string)
    requires EndsLine(pre) && Blank(tail) && digits != "" && AllDigits(digits)
    ensures var text := Output(pre, digits, tail);
            Py.IntegerAnswer(text) == Some(Dec(Value(First(digits, 159))))
            && IntegerAnswer(text, ANSWER_MAX) == Held(Dec(Value(First(digits, 152))), ANSWER_MAX)
  {
    var text := Output(pre, digits, tail);
    DigitsQuiet(digits);
    var m := VisibleLine(pre, digits, tail);
    var v := Visible(text);
    MarkersFound(v, m, digits);
    IntegerRead(v, m, digits);
    PyIntegerRead(v, m, digits);
    StripIsDec(First(digits, 152));
    hide Visible, Py.AnswerRegion, AnswerMarker, Py.LastColonMarker, Output, FirstInteger, Py.FirstInteger,
         Py.MarkerValueSpan, StripZeros, Dec, Value, LastRun;
  }

  /** They give the same answer exactly when up to 152 digits make a number of fewer than
      32, or more than 152 digits start with zeros only as far as the runner sees. */
  lemma {:induction false} IntegerLineAgrees(pre: string, digits: string, tail: string)
    requires EndsLine(pre) && Blank(tail) && digits != "" && AllDigits(digits)
    ensures var text := Output(pre, digits, tail);
            Some(IntegerAnswer(text, ANSWER_MAX)) == Py.IntegerAnswer(text) <==>
              if |digits| <= 152 then |Dec(Value(digits))| < ANSWER_MAX else AllZero(First(digits, 159))
  {
    IntegerLineDecides(pre, digits, tail);
    var seen, all := First(digits, 152), First(digits, 159);
    StripIsDec(seen);
    StripIsDec(all);
    hide Py.IntegerAnswer, IntegerAnswer, Output, Dec, Value;
    if |digits| > 152 {
      var more := all[152..];
      assert all == seen + more && AllDigits(more) && more != "";
      ZeroIs(seen);
      ZeroIs(all);
      if AllZero(seen) {
        HeldZero();
      } else {
        StripLonger(seen, more);
        assert !AllZero(all);
        assert |StripZeros(all)| > |StripZeros(seen)|;
      }
    }
  }

  lemma {:induction false} HeldZero()
    ensures Held("0", ANSWER_MAX) == "0"
  {
  }

  // ---- line specifications ----

  predicate SpecChar(c: char) { IsDigit(c) || c == ',' || c == '-' || c == ' ' }

  predicate SpecChars(s: string) { forall i :: 0 <= i < |s| ==> SpecChar(s[i]) }

  lemma {:induction false} SpelledChars(items: seq<Item>)
    requires GoodItems(items)
    ensures SpecChars(SpelledAll(items))
  {
    if items != [] {
      assert SpecChars(SpelledBody(items[0]));
      SpelledChars(items[1..]);
    }
  }

  lemma {:induction false} SpecCharsQuiet(s: string)
    requires SpecChars(s)
    ensures Quiet(s) && forall i :: 0 <= i < |s| ==> !Py.PyLineBreak(s[i])
  {
    assert forall i :: 0 <= i < |s| ==> SpecChar(s[i]);
  }

  lemma {:induction false} CompactShape(items: seq<Item>)
    requires GoodItems(items) && items != []
    ensures var c := CompactAll(items); c != "" && IsDigit(c[0]) && IsDigit(c[|c| - 1])
  {
    assert GoodItem(items[0]);
    if |items| > 1 {
      CompactShape(items[1..]);
    }
  }

  /** What a buffer of `cap` characters keeps of a specification. */
  lemma {:induction false} TrimKeepsDigit(c: string, s: string, cap: nat)
    requires c != "" && IsDigit(c[0]) && IsDigit(c[|c| - 1]) && cap > 0 && Copied(s, "", c, cap)
    ensures var t := TrimSpec(s);
            t != "" && IsDigit(t[0]) && |t| <= cap && t <= c && (|c| <= cap ==> t == c)
  {
    var kept := Push("", c, cap);
    PushOnEmpty(c, cap);
    DashTrimmed(kept, cap);
    TrimKeepsFirst(kept);
    TrimWhole(c);
    hide TrimSpec, Push;
  }

  lemma {:induction false} PushOnEmpty(c: string, cap: nat)
    requires c != "" && cap > 0
    ensures var kept := Push("", c, cap);
            kept != "" && kept[0] == c[0] && kept <= c && |kept| <= cap && (|c| <= cap ==> kept == c)
  {
    assert "" + c == c && "" + c[..if |c| < cap then |c| else cap] == c[..if |c| < cap then |c| else cap];
  }

  /** A dash added by the scan is trimmed again. */
  lemma {:induction false} DashTrimmed(kept: string, cap: nat)
    requires |kept| <= cap
    ensures TrimSpec(Push(kept, "-", cap)) == TrimSpec(kept)
  {
    if |kept| < cap {
      assert (kept + "-")[..|kept|] == kept;
    } else {
      assert "-"[..0] == "" && kept + "" == kept;
    }
  }

  lemma {:induction false} TrimWhole(c: string)
    requires c != "" && IsDigit(c[|c| - 1])
    ensures TrimSpec(c) == c
  {
  }

  lemma {:induction false} TrimKeepsFirst(s: string)
    requires s != "" && IsDigit(s[0])
    ensures TrimSpec(s) != "" && TrimSpec(s)[0] == s[0]
  {
    if s[|s| - 1] == ',' || s[|s| - 1] == '-' {
      TrimKeepsFirst(s[..|s| - 1]);
    }
  }

  /** The evaluator takes from the line the items within its window, compact and cut. */
  lemma {:induction false} SpecRead(v: string, m: nat, body: string, kept: seq<Item>, junk: string)
    requires AnswerLine(v, m, body) && SpecChars(body) && First(body, 152) == SpelledAll(kept) + junk
    requires GoodItems(kept) && kept != [] && NoDigits(junk)
    ensures var c := CompactAll(kept);
            var spec := NormalizeSpec(v, m, LineEnd(v, m, Window(v, m, 160)), ANSWER_MAX);
            spec != "?" && spec <= c && |spec| < ANSWER_MAX && (|c| < ANSWER_MAX ==> spec == c)
  {
    hide SpelledAll, LineEnd, NormalizeSpec, SpecScan, TrimSpec, Push, At, GoodItems, CompactAll, SpecChars, AnswerLine,
      Window, First;
    WindowParts(v, m, body);
    LineReaches(v, m, body);
    CompactShape(kept);
    var end := LineEnd(v, m, Window(v, m, 160));
    RestNoDigit(v, m, end, First(body, 152), kept, junk);
    LineStarts(v, m, body);
    ScanLine(v, m, end, kept);
    NormalizedFrom(v, m, end, CompactAll(kept));
  }

  lemma {:induction false} LineStarts(v: string, m: nat, body: string)
    requires AnswerLine(v, m, body)
    ensures At(v, m, ANSWER_KEY) && m + 8 <= |v|
  {
  }

  lemma {:induction false} RestNoDigit(v: string, m: nat, end: nat, b: string, kept: seq<Item>, junk: string)
    requires At(v, m + 8, b) && b == SpelledAll(kept) + junk && NoDigits(junk)
    requires m + 8 + |b| <= end <= |v| && forall i :: m + 8 + |b| <= i < end ==> IsSpace(v[i])
    ensures At(v, m + 8, SpelledAll(kept)) && m + 8 + |SpelledAll(kept)| <= end
    ensures NoDigitIn(v, m + 8 + |SpelledAll(kept)|, end)
  {
    hide SpelledAll, At;
    AtSplit(v, m + 8, SpelledAll(kept), junk);
    forall i | m + 8 + |SpelledAll(kept)| <= i < end
      ensures !IsDigit(v[i])
    {
      if i < m + 8 + |b| {
        AtIndex(v, m + 8 + |SpelledAll(kept)|, junk, i - m - 8 - |SpelledAll(kept)|);
      }
    }
  }

  lemma {:induction false} NormalizedFrom(v: string, p: nat, end: nat, c: string)
    requires p <= end <= |v| && c != "" && IsDigit(c[0]) && IsDigit(c[|c| - 1])
    requires Copied(SpecScan(v, p, end, "", ANSWER_MAX - 1), "", c, ANSWER_MAX - 1)
    ensures var spec := NormalizeSpec(v, p, end, ANSWER_MAX);
            spec != "?" && spec <= c && |spec| < ANSWER_MAX && (|c| < ANSWER_MAX ==> spec == c)
  {
    hide SpecScan, TrimSpec, Push;
    TrimKeepsDigit(c, SpecScan(v, p, end, "", ANSWER_MAX - 1), ANSWER_MAX - 1);
  }

  lemma {:induction false} ScanLine(v: string, m: nat, end: nat, items: seq<Item>)
    requires GoodItems(items) && items != [] && At(v, m, ANSWER_KEY) && At(v, m + 8, SpelledAll(items))
    requires m + 8 + |SpelledAll(items)| <= end <= |v| && NoDigitIn(v, m + 8 + |SpelledAll(items)|, end)
    ensures Copied(SpecScan(v, m, end, "", ANSWER_MAX - 1), "", CompactAll(items), ANSWER_MAX - 1)
  {
    hide SpelledAll, SpecScan, Push, At, GoodItems, CompactAll;
    KeyChars(v, m);
    SkipNonDigits(v, m, m + 8, end, "", ANSWER_MAX - 1);
    ItemsCopied(v, m + 8, end, items, "", ANSWER_MAX - 1);
  }

  /** The line that the evaluator cuts out contains what its window holds of the body. */
  lemma {:induction false} LineReaches(v: string, m: nat, body: string)
    requires AnswerLine(v, m, body) && SpecChars(body)
    ensures m + 8 + |First(body, 152)| <= LineEnd(v, m, Window(v, m, 160))
  {
    KeyChars(v, m);
    var n := |First(body, 152)|;
    forall i | m <= i < m + 8 + n
      ensures v[i] != '\n'
    {
      if i >= m + 8 {
        AtIndex(v, m + 8, body, i - m - 8);
        assert SpecChar(body[i - m - 8]);
      }
    }
    LineEndAfter(v, m, m + 8 + n, Window(v, m, 160));
  }

  lemma {:induction false} LineEndAfter(t: string, p: nat, q: nat, end: nat)
    requires p <= q <= end <= |t| && forall i :: p <= i < q ==> t[i] != '\n'
    ensures q <= LineEnd(t, p, end)
    decreases q - p
  {
    if p < q {
      LineEndAfter(t, p + 1, q, end);
    }
  }

  // ---- the runner's pieces ----

  function Bodies(items: seq<Item>): seq<string> {
    if items == [] then [] else [SpelledBody(items[0])] + Bodies(items[1..])
  }

  lemma {:induction false} PySpacesAt(v: string, p: nat, e: nat)
    requires p <= e <= |v| && (forall i :: p <= i < e ==> IsSpace(v[i])) && (e < |v| ==> !Py.PySpace(v[e]))
    ensures Py.PySpacesEnd(v, p) == e
    decreases e - p
  {
    if p < e {
      PySpacesAt(v, p + 1, e);
    }
  }

  lemma {:induction false} LoosePiece(v: string, p: nat, it: Item)
    requires GoodItem(it) && At(v, p, SpelledBody(it)) && p + |SpelledBody(it)| <= |v|
    requires Ends(v, p + |SpelledBody(it)|, |v|)
    ensures p < |v| && IsDigit(v[p]) && Py.PieceEnd(v, p, true) == p + |SpelledBody(it)|
    ensures v[p..p + |SpelledBody(it)|] == SpelledBody(it)
  {
    BodyStarts(v, p, it);
    SliceAt(v, p, SpelledBody(it));
    NotDigitAtEnd(v, p + |SpelledBody(it)|, |v|);
    if it.One? {
      LooseNumber(v, p, it.a);
    } else {
      LooseRange(v, p, it);
    }
  }

  lemma {:induction false} LooseNumber(v: string, p: nat, a: string)
    requires a != "" && AllDigits(a) && At(v, p, a) && p + |a| <= |v| && p < |v| && IsDigit(v[p])
    requires Ends(v, p + |a|, |v|)
    ensures Py.PieceEnd(v, p, true) == p + |a|
  {
    var stop := p + |a|;
    NotDigitAtEnd(v, stop, |v|);
    var dash := Py.PySpacesEnd(v, stop);
    NoSecondPiece(v, stop, dash);
    hide At, DigitsEnd, Py.PySpacesEnd, Ends;
    DigitsEndIs(v, p, |v|, a);
  }

  lemma {:induction false} NoSecondPiece(v: string, stop: nat, dash: nat)
    requires stop <= |v| && Ends(v, stop, |v|) && dash == Py.PySpacesEnd(v, stop)
    ensures dash < |v| && v[dash] == '-' ==>
      var from := Py.PySpacesEnd(v, dash + 1); DigitsEnd(v, from, |v|) == from
  {
    if stop < |v| && v[stop] == ',' {
      assert dash == stop;
    }
  }

  lemma {:induction false} LooseRange(v: string, p: nat, it: Item)
    requires it.Range? && GoodItem(it) && At(v, p, SpelledBody(it)) && p + |SpelledBody(it)| <= |v|
    requires p < |v| && IsDigit(v[p]) && (p + |SpelledBody(it)| < |v| ==> !IsDigit(v[p + |SpelledBody(it)|]))
    ensures Py.PieceEnd(v, p, true) == p + |SpelledBody(it)|
  {
    hide At, DigitsEnd, SpelledBody, Py.PySpacesEnd, AllDigits;
    RangeParts(v, p, it);
    var dash := p + |it.a| + it.gap1;
    var from := dash + 1 + it.gap2;
    DigitsEndIs(v, p, |v|, it.a);
    PySpacesAt(v, p + |it.a|, dash);
    PySpacesAt(v, dash + 1, from);
    DigitsEndIs(v, from, |v|, it.b);
  }

  lemma {:induction false} PiecesSkip(v: string, p: nat, q: nat)
    requires p <= q <= |v| && forall i :: p <= i < q ==> !IsDigit(v[i])
    ensures Py.Pieces(v, p, true) == Py.Pieces(v, q, true)
    decreases q - p
  {
    if p < q {
      PiecesSkip(v, p + 1, q);
    }
  }

  lemma {:induction false} LoosePieces(v: string, p: nat, items: seq<Item>)
    requires GoodItems(items) && items != []
    requires At(v, p, SpelledAll(items)) && p + |SpelledAll(items)| <= |v|
    requires NoDigitIn(v, p + |SpelledAll(items)|, |v|)
    ensures Py.Pieces(v, p, true) == Bodies(items)
    decreases |items|
  {
    hide At, SpelledAll, SpelledBody, GoodItem, Ends, Py.PieceEnd;
    var s := p + items[0].lead;
    var stop := s + |SpelledBody(items[0])|;
    SpelledParts(v, p, |v|, items);
    PiecesSkip(v, p, s);
    LoosePiece(v, s, items[0]);
    if |items| == 1 {
      PiecesSkip(v, stop, |v|);
    } else {
      LoosePieces(v, stop + 1, items[1..]);
    }
  }

  lemma {:induction false} RemoveBlanksFrom(a: string, b: string)
    ensures Py.RemoveBlanks(a + b) == Py.RemoveBlanks(a) + Py.RemoveBlanks(b)
  {
    if a == "" {
      assert a + b == b;
    } else {
      assert (a + b)[1..] == a[1..] + b;
      RemoveBlanksFrom(a[1..], b);
    }
  }

  lemma {:induction false} NoBlanks(s: string)
    requires forall i :: 0 <= i < |s| ==> s[i] != ' '
    ensures Py.RemoveBlanks(s) == s
  {
    if s != "" {
      NoBlanks(s[1..]);
    }
  }

  lemma {:induction false} AllBlanks(n: nat)
    ensures Py.RemoveBlanks(Blanks(n)) == ""
  {
    if n > 0 {
      assert Blanks(n)[1..] == Blanks(n - 1);
      AllBlanks(n - 1);
    }
  }

  lemma {:induction false} BodyCompacted(it: Item)
    requires GoodItem(it)
    ensures Py.RemoveBlanks(SpelledBody(it)) == Compact(it)
  {
    NoBlanks(it.a);
    if it.Range? {
      NoBlanks(it.b);
      assert Py.RemoveBlanks("-") == "-" + Py.RemoveBlanks("-"[1..]);
      hide Blanks, Py.RemoveBlanks, AllDigits;
      AllBlanks(it.gap1);
      AllBlanks(it.gap2);
      var a, g1, g2 := it.a, Blanks(it.gap1), Blanks(it.gap2);
      RemoveBlanksFrom(a, g1);
      RemoveBlanksFrom(a + g1, "-");
      RemoveBlanksFrom(a + g1 + "-", g2);
      RemoveBlanksFrom(a + g1 + "-" + g2, it.b);
    }
  }

  lemma {:induction false} BodiesJoined(items: seq<Item>)
    requires GoodItems(items)
    ensures Py.JoinPieces(Bodies(items)) == CompactAll(items)
  {
    hide SpelledBody, Compact, Py.RemoveBlanks, GoodItem;
    if items != [] {
      BodyCompacted(items[0]);
      BodiesJoined(items[1..]);
      assert Bodies(items)[1..] == Bodies(items[1..]);
    }
  }

  /** The pieces of a text, joined without their blanks. */
  function CompactOf(s: string): string { Py.JoinPieces(Py.Pieces(s, 0, true)) }

  /** The runner takes from the line the items within its span, compact. */
  lemma {:induction false} PySpecRead(v: string, m: nat, body: string, kept: seq<Item>, junk: string)
    requires AnswerLine(v, m, body) && SpecChars(body) && First(body, 159) == SpelledAll(kept) + junk
    requires GoodItems(kept) && kept != [] && NoDigits(junk)
    ensures var pieces := Py.Pieces(Py.MarkerValueSpan(v, m, 160), 0, true);
            pieces != [] && Py.JoinPieces(pieces) == CompactAll(kept)
  {
    hide SpelledAll, Py.MarkerValueSpan, SpanEnd, Py.Pieces, At, GoodItems, SpecChars, CompactAll, Py.JoinPieces,
         AnswerLine, Quiet, Py.PyLineBreak, First;
    SpecCharsQuiet(body);
    SpanParts(v, m, body, 160);
    SpanPieces(v[m + 7..SpanEnd(v, m, 160)], 1, First(body, 159), kept, junk);
  }

  lemma {:induction false} SpanPieces(span: string, lead: nat, b: string, kept: seq<Item>, junk: string)
    requires GoodItems(kept) && kept != [] && At(span, lead, b) && b == SpelledAll(kept) + junk && NoDigits(junk)
    requires forall i :: 0 <= i < lead ==> i < |span| && !IsDigit(span[i])
    requires forall i :: lead + |b| <= i < |span| ==> !IsDigit(span[i])
    ensures Py.Pieces(span, 0, true) != [] && Py.JoinPieces(Py.Pieces(span, 0, true)) == CompactAll(kept)
  {
    AtSplit(span, lead, SpelledAll(kept), junk);
    AtWithin(span, lead, b);
    forall i | lead + |SpelledAll(kept)| <= i < |span|
      ensures !IsDigit(span[i])
    {
      if i < lead + |b| {
        AtIndex(span, lead + |SpelledAll(kept)|, junk, i - lead - |SpelledAll(kept)|);
      }
    }
    hide SpelledAll, Py.Pieces, At, GoodItems, CompactAll, Py.JoinPieces;
    PiecesSkip(span, 0, lead);
    LoosePieces(span, lead, kept);
    BodiesJoined(kept);
    BodiesSome(kept);
  }

  lemma {:induction false} BodiesSome(items: seq<Item>)
    requires items != []
    ensures Bodies(items) != []
  {
  }

  lemma {:induction false} CompactOfCut(b: string, kept: seq<Item>, junk: string)
    requires GoodItems(kept) && kept != [] && b == SpelledAll(kept) + junk && NoDigits(junk)
    ensures CompactOf(b) == CompactAll(kept)
  {
    assert At(b, 0, b);
    hide *;
    SpanPieces(b, 0, b, kept, junk);
  }

  /** "Answer: " and comma-separated lines decide a localisation case in both graders. The
      evaluator takes the compact form of the first 152 characters if it fits its buffer,
      and the start of it otherwise; the runner that of the first 159. */
  lemma {:induction false} SpecLineDecides(pre: string, items: seq<Item>, tail: string)
    requires EndsLine(pre) && Blank(tail) && GoodItems(items) && items != [] && items[0].lead < 152
    ensures var text, body := Output(pre, SpelledAll(items), tail), SpelledAll(items);
            var seen := CompactOf(First(body, 152));
            Py.LineSpecAnswer(text) == Some(CompactOf(First(body, 159)))
            && CompsecAnswer(text, ANSWER_MAX) <= seen
            && (CompsecAnswer(text, ANSWER_MAX) == seen <==> |seen| < ANSWER_MAX)
    ensures |SpelledAll(items)| <= 152 ==>
            CompactOf(First(SpelledAll(items), 152)) == CompactOf(First(SpelledAll(items), 159)) == CompactAll(items)
  {
    var body := SpelledAll(items);
    var text := Output(pre, body, tail);
    SpelledChars(items);
    SpecCharsQuiet(body);
    LeadWithin(items);
    var m := VisibleLine(pre, body, tail);
    var v := Visible(text);
    MarkersFound(v, m, body);
    var kept1, junk1 := CutItems(items, |First(body, 152)|);
    var kept2, junk2 := CutItems(items, |First(body, 159)|);
    hide Visible, Py.AnswerRegion, AnswerMarker, Py.LastColonMarker, Output, NormalizeSpec, Py.Pieces, SpecChars,
         Py.MarkerValueSpan, SpelledAll, CompactAll, GoodItems, Py.JoinPieces, LineEnd, AnswerLine, Window, Quiet, Py.PyLineBreak;
    SpecRead(v, m, body, kept1, junk1);
    CompactOfCut(First(body, 152), kept1, junk1);
    PySpecRead(v, m, body, kept2, junk2);
    CompactOfCut(First(body, 159), kept2, junk2);
    if |body| <= 152 {
      assert body + "" == body;
      CompactOfCut(body, items, "");
    }
  }

  lemma {:induction false} LeadWithin(items: seq<Item>)
    requires GoodItems(items) && items != []
    ensures items[0].lead < |SpelledAll(items)|
  {
    assert GoodItem(items[0]);
  }

  /** They give the same answer exactly when the compact form of the first 152 characters
      is shorter than 32 and none of the next seven is a digit. */
  lemma {:induction false} SpecLineAgrees(pre: string, items: seq<Item>, tail: string)
    requires EndsLine(pre) && Blank(tail) && GoodItems(items) && items != [] && items[0].lead < 152
    ensures var text, body := Output(pre, SpelledAll(items), tail), SpelledAll(items);
            Some(CompsecAnswer(text, ANSWER_MAX)) == Py.LineSpecAnswer(text) <==>
              |CompactOf(First(body, 152))| < ANSWER_MAX && NoDigits(First(body, 159)[|First(body, 152)|..])
  {
    var body := SpelledAll(items);
    LeadWithin(items);
    var b1, b2 := First(body, 152), First(body, 159);
    var more := b2[|b1|..];
    assert b2 == b1 + more;
    hide *;
    SpecLineDecides(pre, items, tail);
    if NoDigits(more) {
      SameCompact(items, |b1|, b1, more);
    } else {
      MoreCompact(items, b1, b2, more, CompsecAnswer(Output(pre, body, tail), ANSWER_MAX));
    }
  }

  /** Characters that are no digits do not change the compact form of a cut specification. */
  lemma {:induction false} SameCompact(items: seq<Item>, n: nat, b: string, more: string)
    requires GoodItems(items) && items != [] && n <= |SpelledAll(items)| && n > items[0].lead
    requires b == SpelledAll(items)[..n] && NoDigits(more)
    ensures CompactOf(b + more) == CompactOf(b)
  {
    var kept, junk := CutItems(items, n);
    hide *;
    NoDigitsJoin(junk, more);
    CompactOfCut(b, kept, junk);
    JoinTwice(SpelledAll(kept), junk, more);
    CompactOfCut(b + more, kept, junk + more);
  }

  lemma {:induction false} JoinTwice(a: string, b: string, c: string)
    ensures a + b + c == a + (b + c)
  {
  }

  /** One more digit shows in the compact form, and what the evaluator keeps is at most
      the compact form of its own part. */
  lemma {:induction false} MoreCompact(items: seq<Item>, b1: string, b2: string, more: string, got: string)
    requires GoodItems(items) && items != [] && |b1| > items[0].lead
    requires b1 <= SpelledAll(items) && b2 <= SpelledAll(items) && b2 == b1 + more && !NoDigits(more)
    requires got <= CompactOf(b1)
    ensures got != CompactOf(b2)
  {
    CutDigits(items, b1);
    CutDigits(items, b2);
    hide *;
    DigitCountJoin(b1, more);
    DigitCountNone(more);
    DigitCountPrefix(got, CompactOf(b1));
  }

  lemma {:induction false} CutDigits(items: seq<Item>, b: string)
    requires GoodItems(items) && items != [] && |b| > items[0].lead && b <= SpelledAll(items)
    ensures DigitCount(CompactOf(b)) == DigitCount(b)
  {
    var kept, junk := CutItems(items, |b|);
    hide *;
    CompactOfCut(b, kept, junk);
    CutCount(b, kept, junk);
  }

  lemma {:induction false} CutCount(b: string, kept: seq<Item>, junk: string)
    requires GoodItems(kept) && b == SpelledAll(kept) + junk && NoDigits(junk)
    ensures DigitCount(b) == DigitCount(CompactAll(kept))
  {
    hide *;
    DigitCountJoin(SpelledAll(kept), junk);
    DigitCountNone(junk);
    CompactCount(kept);
  }
}
