/** What the extractors return for any output at all, with or without an answer
    marker: said of the characters of the output. */
module AnswerMeaning {
  import opened CText
  import opened LineSpec
  import opened Answers

  // ---- the visible part ----

  /** Everything after the first close tag is visible; without one, all of the output. */
  lemma {:induction false} VisibleIs(generated: string)
    ensures (forall i :: 0 <= i <= |generated| ==> !At(generated, i, "</think>")) ==> Visible(generated) == generated
    ensures forall i: nat :: At(generated, i, "</think>") && (forall j :: 0 <= j < i ==> !At(generated, j, "</think>")) ==>
                               Visible(generated) == generated[i + 8..]
  {
    FindInFirst(generated, 0, |generated|, THINK_CLOSE);
  }

  // ---- the answer marker ----

  /** "answer" at `p`, in any case. */
  predicate Word(v: string, p: nat) {
    p + 6 <= |v| && forall k :: 0 <= k < 6 ==> ToLower(v[p + k]) == "answer"[k]
  }

  /** That word on its own, then white space if any, then a colon. */
  predicate Marker(v: string, p: nat) {
    && Word(v, p)
    && (p > 0 ==> !IsAlpha(v[p - 1]))
    && (p + 6 < |v| ==> !IsAlpha(v[p + 6]))
    && exists q :: p + 6 <= q < |v| && v[q] == ':' && forall k :: p + 6 <= k < q ==> IsSpace(v[k])
  }

  lemma {:induction false} WordIs(v: string, p: nat)
    ensures AnswerWord(v, p) <==> Word(v, p)
  {
    assert "answer"[0] == 'a' && "answer"[1] == 'n' && "answer"[2] == 's' && "answer"[3] == 'w';
    assert "answer"[4] == 'e' && "answer"[5] == 'r';
    if Word(v, p) {
      assert ToLower(v[p + 0]) == "answer"[0];
    }
  }

  lemma {:induction false} SpacesEndIs(v: string, p: nat, q: nat)
    requires p <= q < |v| && !IsSpace(v[q]) && forall k :: p <= k < q ==> IsSpace(v[k])
    ensures SpacesEnd(v, p, |v|) == q
    decreases q - p
  {
    if p < q {
      SpacesEndIs(v, p + 1, q);
    }
  }

  lemma {:induction false} SpacesEndAll(v: string, p: nat)
    requires p <= |v|
    ensures forall k :: p <= k < SpacesEnd(v, p, |v|) ==> IsSpace(v[k])
    decreases |v| - p
  {
    if p < |v| && IsSpace(v[p]) {
      SpacesEndAll(v, p + 1);
    }
  }

  lemma {:induction false} ColonIs(v: string, p: nat)
    ensures ColonMarker(v, p) <==> Marker(v, p)
  {
    WordIs(v, p);
    hide AnswerWord, Word;
    if p + 6 <= |v| {
      SpacesEndAll(v, p + 6);
      if Marker(v, p) {
        var q :| p + 6 <= q < |v| && v[q] == ':' && forall k :: p + 6 <= k < q ==> IsSpace(v[k]);
        SpacesEndIs(v, p + 6, q);
      }
    }
  }

  lemma {:induction false} LastMarkerIs(v: string, k: nat)
    requires k <= |v|
    ensures var r := LastMarker(v, k);
            if r.None? then forall p :: 0 <= p < k ==> !Marker(v, p)
            else Marker(v, r.value) && forall p :: r.value < p < k ==> !Marker(v, p)
  {
    hide Marker, ColonMarker;
    if k > 0 {
      ColonIs(v, k - 1);
      LastMarkerIs(v, k - 1);
    }
  }

  lemma {:induction false} FirstWordIs(v: string, p: nat)
    requires p <= |v|
    ensures var r := FirstAnswerWord(v, p);
            if r.None? then forall q :: p <= q <= |v| ==> !Word(v, q)
            else Word(v, r.value) && forall q :: p <= q < r.value ==> !Word(v, q)
    decreases |v| - p
  {
    hide AnswerWord;
    WordIs(v, p);
    if p < |v| {
      FirstWordIs(v, p + 1);
    }
  }

  /** The last marker with a colon; without any, the first "answer" anywhere. */
  lemma {:induction false} MarkerIs(v: string)
    ensures var r := AnswerMarker(v);
            if exists p: nat :: 0 <= p < |v| && Marker(v, p) then
              r.Some? && Marker(v, r.value) && forall p :: r.value < p < |v| ==> !Marker(v, p)
            else if exists p: nat :: 0 <= p < |v| && Word(v, p) then
              r.Some? && Word(v, r.value) && forall p :: 0 <= p < r.value ==> !Word(v, p)
            else r == None
  {
    hide Marker, Word, LastMarker, FirstAnswerWord;
    LastMarkerIs(v, |v|);
    FirstWordIs(v, 0);
    var r := AnswerMarker(v);
    if r.Some? {
      assert 0 <= r.value < |v|;
    }
  }

  // ---- letters ----

  /** The letter of the `c`-th of `n` choices, in either case, with no letter beside it. */
  predicate Lone(v: string, p: nat, n: nat, c: char)
    requires p < |v|
  {
    && 'A' <= c && c as int < 'A' as int + n && (v[p] == c || v[p] as int == c as int + 32)
    && (p > 0 ==> !IsAlpha(v[p - 1])) && (p + 1 < |v| ==> !IsAlpha(v[p + 1]))
  }

  predicate NoLone(v: string, from: nat, end: nat, n: nat)
    requires end <= |v|
  { forall p: nat, c :: from <= p < end ==> !Lone(v, p, n, c) }

  predicate FirstLone(v: string, from: nat, end: nat, n: nat, c: char)
    requires end <= |v|
  { exists p: nat :: from <= p < end && Lone(v, p, n, c) && NoLone(v, from, p, n) }

  predicate LastLone(v: string, n: nat, c: char) {
    exists p: nat :: 0 <= p < |v| && Lone(v, p, n, c) && NoLone(v, p + 1, |v|, n)
  }

  lemma {:induction false} LoneIs(v: string, p: nat, n: nat)
    requires p < |v| && n <= 26
    ensures LoneLetter(v, p, n) ==> Lone(v, p, n, ToUpper(v[p]))
    ensures forall c :: Lone(v, p, n, c) ==> LoneLetter(v, p, n) && c == ToUpper(v[p])
  {
  }

  lemma {:induction false} FirstLetterIs(v: string, from: nat, end: nat, n: nat)
    requires from <= end <= |v| && n <= 26
    ensures var r := FirstLetter(v, from, end, n);
            (if r.None? then NoLone(v, from, end, n) else FirstLone(v, from, end, n, r.value))
    decreases end - from
  {
    hide LoneLetter, Lone, ToUpper;
    if from < end {
      LoneIs(v, from, n);
      if LoneLetter(v, from, n) {
        assert NoLone(v, from, from, n);
      } else {
        FirstLetterIs(v, from + 1, end, n);
        var r := FirstLetter(v, from + 1, end, n);
        if r.Some? {
          var p: nat :| from + 1 <= p < end && Lone(v, p, n, r.value) && NoLone(v, from + 1, p, n);
          assert NoLone(v, from, p, n);
        }
      }
    }
  }

  lemma {:induction false} LastLetterIs(v: string, k: nat, n: nat)
    requires k <= |v| && n <= 26
    ensures NoLone(v, 0, k, n) ==> LastLetter(v, k, n) == '?'
    ensures !NoLone(v, 0, k, n) ==>
              exists p: nat :: 0 <= p < k && Lone(v, p, n, LastLetter(v, k, n)) && NoLone(v, p + 1, k, n)
  {
    hide LoneLetter, Lone, ToUpper;
    if k > 0 {
      LoneIs(v, k - 1, n);
      LastLetterIs(v, k - 1, n);
      if LoneLetter(v, k - 1, n) {
        var p: nat := k - 1;
        assert Lone(v, p, n, LastLetter(v, k, n)) && NoLone(v, p + 1, k, n);
      } else if !NoLone(v, 0, k, n) {
        assert !NoLone(v, 0, k - 1, n);
        var p: nat :| 0 <= p < k - 1 && Lone(v, p, n, LastLetter(v, k, n)) && NoLone(v, p + 1, k - 1, n);
        LoneNext(v, p + 1, k - 1, n);
      }
    }
  }

  lemma {:induction false} LoneNext(v: string, from: nat, k: nat, n: nat)
    requires k < |v| && NoLone(v, from, k, n) && forall c :: !Lone(v, k, n, c)
    ensures NoLone(v, from, k + 1, n)
  {
  }

  /** Where a search from the marker over at most `limit` characters stops. */
  function Until(v: string, m: nat, limit: nat): nat { if m + limit < |v| then m + limit else |v| }

  /** The letter answer of any output: the first lone letter within 96 characters of the
      marker; else the last lone letter of the visible text; else '?'. */
  lemma {:induction false} LetterIs(generated: string, n: nat)
    requires n <= 26
    ensures var v := Visible(generated);
            var m := AnswerMarker(v);
            var c := LetterAnswer(generated, n);
            if m.Some? && !NoLone(v, m.value, Until(v, m.value, 96), n)
            then FirstLone(v, m.value, Until(v, m.value, 96), n, c)
            else if !NoLone(v, 0, |v|, n) then LastLone(v, n, c)
            else c == '?'
  {
    hide Visible, AnswerMarker, LoneLetter, Lone;
    var v := Visible(generated);
    var m := AnswerMarker(v);
    if m.Some? {
      FirstLetterIs(v, m.value, Until(v, m.value, 96), n);
      if FirstLetter(v, m.value, Until(v, m.value, 96), n).Some? {
        var c := FirstLetter(v, m.value, Until(v, m.value, 96), n).value;
        var p: nat :| m.value <= p < Until(v, m.value, 96) && Lone(v, p, n, c) && NoLone(v, m.value, p, n);
        assert !NoLone(v, m.value, Until(v, m.value, 96), n);
      }
    }
    LastLetterIs(v, |v|, n);
    if n == 0 {
      NoChoices(v, 0, |v|);
      if m.Some? {
        NoChoices(v, m.value, Until(v, m.value, 96));
      }
    }
  }

  lemma {:induction false} NoChoices(v: string, from: nat, end: nat)
    requires end <= |v|
    ensures NoLone(v, from, end, 0)
  {
  }

  // ---- integers ----

  predicate NoDigit(v: string, from: nat, end: nat)
    requires end <= |v|
  { forall i :: from <= i < end ==> !IsDigit(v[i]) }

  /** The first digits in [from, end), as far as they go in it. */
  predicate FirstDigits(v: string, from: nat, end: nat, digits: string)
    requires end <= |v|
  {
    exists p: nat :: from <= p < end && NoDigit(v, from, p) && IsDigit(v[p]) && RunAt(v, p, end, digits)
  }

  predicate RunAt(v: string, p: nat, end: nat, digits: string)
    requires p <= end <= |v|
  {
    At(v, p, digits) && AllDigits(digits) && p + |digits| <= end && (p + |digits| < end ==> !IsDigit(v[p + |digits|]))
  }

  /** The digits of the last run: a whole run, and no digit after it. */
  predicate LastDigits(v: string, digits: string) { exists p: nat :: p < |v| && LastAt(v, p, digits) }

  predicate LastAt(v: string, p: nat, digits: string) {
    p < |v| && digits != "" && (p > 0 ==> !IsDigit(v[p - 1])) && RunAt(v, p, |v|, digits) && NoDigit(v, p + |digits|, |v|)
  }

  lemma {:induction false} RunIs(v: string, p: nat, end: nat)
    requires p < end <= |v| && IsDigit(v[p])
    ensures RunAt(v, p, end, v[p..DigitsEnd(v, p, end)])
  {
    DigitsEndAll(v, p, end);
  }

  lemma {:induction false} FirstIntegerIs(v: string, from: nat, end: nat, size: nat)
    requires from <= end <= |v|
    ensures var r := FirstInteger(v, from, end, size);
            (NoDigit(v, from, end) ==> r == None)
            && (!NoDigit(v, from, end) ==>
                  exists digits :: FirstDigits(v, from, end, digits) && r == Some(NormalizeInteger(digits, size)))
    decreases end - from
  {
    hide NormalizeInteger, RunAt;
    if from < end {
      if IsDigit(v[from]) {
        RunIs(v, from, end);
        var digits := v[from..DigitsEnd(v, from, end)];
        assert NoDigit(v, from, from);
        assert FirstDigits(v, from, end, digits);
      } else {
        FirstIntegerIs(v, from + 1, end, size);
        if !NoDigit(v, from, end) {
          assert !NoDigit(v, from + 1, end);
          var digits :| FirstDigits(v, from + 1, end, digits) && FirstInteger(v, from + 1, end, size) == Some(NormalizeInteger(digits, size));
          var p: nat :| from + 1 <= p < end && NoDigit(v, from + 1, p) && IsDigit(v[p]) && RunAt(v, p, end, digits);
          assert NoDigit(v, from, p);
          assert FirstDigits(v, from, end, digits);
        }
      }
    }
  }

  /** `last` is the last whole run before `p`, if there is any digit before `p`. */
  predicate LastSoFar(v: string, p: nat, last: Option<(nat, nat)>)
    requires p <= |v|
  {
    (p > 0 && p < |v| && IsDigit(v[p]) ==> !IsDigit(v[p - 1])) &&
    if last.None? then NoDigit(v, 0, p)
    else
      var (a, b) := last.value;
      a < b <= p && (forall i :: a <= i < b ==> IsDigit(v[i])) && (a > 0 ==> !IsDigit(v[a - 1])) && NoDigit(v, b, p)
  }

  lemma {:induction false} LastRunIs(v: string, p: nat, last: Option<(nat, nat)>)
    requires p <= |v| && LastSoFar(v, p, last)
    requires last.Some? ==> last.value.0 < last.value.1 <= |v|
    ensures LastSoFar(v, |v|, LastRun(v, p, last))
    decreases |v| - p
  {
    if p < |v| {
      if IsDigit(v[p]) {
        var q := DigitsEnd(v, p, |v|);
        DigitsEndAll(v, p, |v|);
        assert forall i :: p <= i < q ==> v[i] == v[p..q][i - p];
        LastRunIs(v, q, Some((p, q)));
      } else {
        LastRunIs(v, p + 1, last);
      }
    }
  }

  lemma {:induction false} LastDigitsIs(v: string)
    ensures var run := LastRun(v, 0, None);
            if NoDigit(v, 0, |v|) then run == None
            else run.Some? && LastDigits(v, v[run.value.0..run.value.1])
  {
    LastRunIs(v, 0, None);
    var run := LastRun(v, 0, None);
    if run.Some? {
      var (a, b) := run.value;
      assert IsDigit(v[a]) && !NoDigit(v, 0, |v|);
      LastDigitsAt(v, a, b);
    }
  }

  lemma {:induction false} LastDigitsAt(v: string, a: nat, b: nat)
    requires a < b <= |v| && LastSoFar(v, |v|, Some((a, b)))
    ensures LastDigits(v, v[a..b])
  {
    var digits := v[a..b];
    assert forall i :: 0 <= i < |digits| ==> digits[i] == v[a + i];
    assert LastAt(v, a, digits);
  }

  /** The integer answer of any output: the first digits within 160 characters of the
      marker; else the last run of digits of the visible text; else "?". */
  lemma {:induction false} IntegerIs(generated: string, size: nat)
    ensures var v := Visible(generated);
            var m := AnswerMarker(v);
            var r := IntegerAnswer(generated, size);
            if m.Some? && !NoDigit(v, m.value, Until(v, m.value, 160))
            then (exists digits :: FirstDigits(v, m.value, Until(v, m.value, 160), digits) && r == NormalizeInteger(digits, size))
            else if !NoDigit(v, 0, |v|) then (exists digits :: LastDigits(v, digits) && r == NormalizeInteger(digits, size))
            else r == Held("?", size)
  {
    hide Visible, AnswerMarker, FirstDigits, LastDigits, NormalizeInteger;
    var v := Visible(generated);
    var m := AnswerMarker(v);
    if m.Some? {
      FirstIntegerIs(v, m.value, Until(v, m.value, 160), size);
    }
    LastDigitsIs(v);
  }

  // ---- line specifications without one ----

  /** Without a digit on the line of the marker, or without a marker, the answer to a
      question for lines is the integer answer. */
  lemma {:induction false} SpecFallback(generated: string, size: nat)
    requires var v := Visible(generated);
             var m := AnswerMarker(v);
             m.Some? ==> NoDigit(v, m.value, LineEnd(v, m.value, Until(v, m.value, 160)))
    requires size > 1
    ensures CompsecAnswer(generated, size) == IntegerAnswer(generated, size)
  {
    hide Visible, AnswerMarker, IntegerAnswer;
    var v := Visible(generated);
    var m := AnswerMarker(v);
    if m.Some? {
      NothingScanned(v, m.value, LineEnd(v, m.value, Until(v, m.value, 160)), size - 1);
    }
  }

  lemma {:induction false} NothingScanned(v: string, p: nat, end: nat, cap: nat)
    requires end <= |v| && NoDigit(v, p, end)
    ensures SpecScan(v, p, end, "", cap) == ""
    decreases |v| + 1 - p
  {
    if p < end {
      NothingScanned(v, p + 1, end, cap);
    }
  }

  // ---- numbers ----

  /** Normalizing drops leading zeros and nothing else: the number stays, and no zero
      leads unless it is the only digit. */
  lemma {:induction false} NormalizedIs(s: string, size: nat)
    requires AllDigits(s) && s != ""
    ensures var r := StripZeros(s);
            AllDigits(r) && r != "" && Value(r) == Value(s) && (r[0] == '0' ==> |r| == 1)
    ensures |StripZeros(s)| < size ==> NormalizeInteger(s, size) == StripZeros(s)
    ensures 0 < size <= |StripZeros(s)| ==> NormalizeInteger(s, size) == StripZeros(s)[..size - 1]
  {
    StripZerosKeeps(s);
  }

  lemma {:induction false} StripZerosKeeps(s: string)
    requires AllDigits(s) && s != ""
    ensures var r := StripZeros(s);
            AllDigits(r) && r != "" && Value(r) == Value(s) && (r[0] == '0' ==> |r| == 1)
  {
    hide Value;
    if |s| > 1 && s[0] == '0' {
      LeadingZero(s);
      StripZerosKeeps(s[1..]);
    }
  }

  lemma {:induction false} LeadingZero(s: string)
    requires AllDigits(s) && |s| > 1 && s[0] == '0'
    ensures Value(s) == Value(s[1..])
  {
    var n := |s| - 1;
    assert s[1..][..n - 1] == s[..n][1..];
    if n > 1 {
      LeadingZero(s[..n]);
    } else {
      assert s[..1] == "0" && s[1..][..0] == "";
      assert Value(s[..1]) == Value("") * 10 + DigitOf('0') by { assert s[..1][..0] == ""; }
    }
  }
}
