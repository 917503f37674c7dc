/** What the runner's extractors find behind the answer marker of any ASCII output, said
    of its characters. */
module PyAnswerMeaning {
  import opened CText
  import opened AnswerMeaning
  import Py = PyGrader

  // ---- characters ----

  predicate WordChar(c: char) { 'a' <= c <= 'z' || 'A' <= c <= 'Z' || '0' <= c <= '9' || c == '_' }

  /** White space, and what ends a line, among the ASCII characters. */
  predicate White(c: char) { c == ' ' || 9 <= c as int <= 13 || 28 <= c as int <= 31 }

  predicate LineBreak(c: char) { 10 <= c as int <= 13 || 28 <= c as int <= 30 }

  // ---- the marker ----

  /** "answer" as a word of its own, then white space if any, then a colon. */
  predicate RunnerMarker(v: string, p: nat) {
    && Word(v, p)
    && (p > 0 ==> !WordChar(v[p - 1]))
    && (p + 6 < |v| ==> !WordChar(v[p + 6]))
    && exists q :: p + 6 <= q < |v| && v[q] == ':' && forall k :: p + 6 <= k < q ==> White(v[k])
  }

  lemma {:induction false} RunnerWordIs(v: string, p: nat)
    ensures Py.AnswerAt(v, p) <==> Word(v, p)
  {
    assert "answer"[0] == 'a' && "answer"[1] == 'n' && "answer"[2] == 's' && "answer"[3] == 'w';
    assert "answer"[4] == 'e' && "answer"[5] == 'r';
    if Word(v, p) {
      assert ToLower(v[p + 0]) == "answer"[0];
    }
  }

  /** The letters of the word are word characters, and only the first is an a. */
  lemma {:induction false} WordLetter(v: string, p: nat, k: nat)
    requires Word(v, p) && k < 6
    ensures p + k < |v| && WordChar(v[p + k]) && (k > 0 ==> ToLower(v[p + k]) != 'a')
  {
    var word := "answer";
    assert word[0] == 'a' && word[1] == 'n' && word[2] == 's' && word[3] == 'w' && word[4] == 'e' && word[5] == 'r';
    assert ToLower(v[p + k]) == word[k];
  }

  lemma {:induction false} NoWord(v: string, p: nat)
    requires p < |v| ==> ToLower(v[p]) != 'a'
    ensures !Word(v, p)
  {
    if p + 6 <= |v| {
      assert ToLower(v[p + 0]) != "answer"[0];
    }
  }

  lemma {:induction false} SpacesAre(v: string, p: nat)
    requires p <= |v|
    ensures var e := Py.PySpacesEnd(v, p);
            (forall k :: p <= k < e ==> White(v[k])) && (e < |v| ==> !White(v[e]))
    decreases |v| - p
  {
    if p < |v| && Py.PySpace(v[p]) {
      SpacesAre(v, p + 1);
    }
  }

  lemma {:induction false} ColonAfterSpaces(v: string, p: nat, q: nat)
    requires p <= q < |v| && v[q] == ':' && forall k :: p <= k < q ==> White(v[k])
    ensures Py.PySpacesEnd(v, p) == q
    decreases q - p
  {
    if p < q {
      ColonAfterSpaces(v, p + 1, q);
    }
  }

  lemma {:induction false} RunnerMarkerIs(v: string, p: nat)
    ensures Py.ColonMarkerAt(v, p) <==> RunnerMarker(v, p)
  {
    RunnerWordIs(v, p);
    hide Py.AnswerAt, Word;
    if Word(v, p) && p + 6 <= |v| {
      WordLetter(v, p, 0);
      WordLetter(v, p, 5);
      SpacesAre(v, p + 6);
      if RunnerMarker(v, p) {
        var q :| p + 6 <= q < |v| && v[q] == ':' && forall k :: p + 6 <= k < q ==> White(v[k]);
        ColonAfterSpaces(v, p + 6, q);
      }
    }
  }

  /** No marker starts within another one. */
  lemma {:induction false} NoMarkerWithin(v: string, p: nat, r: nat)
    requires Py.ColonMarkerAt(v, p) && p < r < Py.MarkerEnd(v, p)
    ensures !RunnerMarker(v, r)
  {
    RunnerWordIs(v, p);
    SpacesAre(v, p + 6);
    if r < p + 6 {
      WordLetter(v, p, r - p);
    }
    NoWord(v, r);
  }

  /** `last` is the last marker before `p`, if there is one. */
  predicate LastBefore(v: string, p: nat, last: Option<nat>) {
    if last.None? then forall r :: 0 <= r < p ==> !RunnerMarker(v, r)
    else last.value < p && RunnerMarker(v, last.value) && forall r :: last.value < r < p ==> !RunnerMarker(v, r)
  }

  lemma {:induction false} LastMatchIs(v: string, p: nat, last: Option<nat>)
    requires p <= |v| && LastBefore(v, p, last)
    ensures LastBefore(v, |v|, Py.LastMatch(v, p, last))
    decreases |v| - p
  {
    hide RunnerMarker, Py.ColonMarkerAt;
    if p < |v| {
      RunnerMarkerIs(v, p);
      if Py.ColonMarkerAt(v, p) {
        var e := Py.MarkerEnd(v, p);
        forall r | p < r < e ensures !RunnerMarker(v, r) { NoMarkerWithin(v, p, r); }
        LastMatchIs(v, e, Some(p));
      } else {
        LastMatchIs(v, p + 1, last);
      }
    }
  }

  /** The runner's marker is the last "answer" as a word of its own before a colon. */
  lemma {:induction false} LastColonMarkerIs(v: string)
    ensures LastBefore(v, |v|, Py.LastColonMarker(v))
  {
    hide RunnerMarker;
    LastMatchIs(v, 0, None);
  }

  // ---- the value ----

  /** What follows the first colon from `start`: at most `limit` characters of one line. */
  predicate ValueAt(v: string, start: nat, limit: nat, c: nat, value: string) {
    && start <= c < |v| && v[c] == ':' && (forall k :: start <= k < c ==> v[k] != ':')
    && At(v, c + 1, value) && |value| <= limit && (forall k :: 0 <= k < |value| ==> !LineBreak(value[k]))
    && (|value| < limit && c + 1 + |value| < |v| ==> LineBreak(v[c + 1 + |value|]))
  }

  lemma {:induction false} FirstBreakIs(v: string, p: nat, end: nat)
    requires p <= end <= |v|
    ensures var e := Py.FirstBreak(v, p, end);
            (forall k :: p <= k < e ==> !LineBreak(v[k])) && (e < end ==> LineBreak(v[e]))
    decreases end - p
  {
    if p < end && !Py.PyLineBreak(v[p]) {
      FirstBreakIs(v, p + 1, end);
    }
  }

  /** The first colon from `start`, or none. */
  lemma {:induction false} FirstColon(v: string, start: nat)
    ensures var colon := FindIn(v, start, |v|, ":");
            if colon.None? then forall k :: start <= k < |v| ==> v[k] != ':'
            else start <= colon.value < |v| && v[colon.value] == ':' && forall k :: start <= k < colon.value ==> v[k] != ':'
  {
    FindInFirst(v, start, |v|, ":");
    hide FindIn, At;
    forall k | start <= k < |v|
      ensures At(v, k, ":") <==> v[k] == ':'
    {
      ColonAt(v, k);
    }
  }

  lemma {:induction false} ValueIs(v: string, start: nat, limit: nat)
    ensures var value := Py.MarkerValueSpan(v, start, limit);
            if forall k :: start <= k < |v| ==> v[k] != ':' then value == ""
            else exists c :: ValueAt(v, start, limit, c, value)
  {
    hide FindIn, LineBreak, Py.FirstBreak;
    FirstColon(v, start);
    var colon := FindIn(v, start, |v|, ":");
    if colon.Some? {
      ValueBehind(v, start, limit, colon.value);
      hide ValueAt;
      assert ValueAt(v, start, limit, colon.value, Py.MarkerValueSpan(v, start, limit));
    }
  }

  lemma {:induction false} ValueBehind(v: string, start: nat, limit: nat, c: nat)
    requires start <= c < |v| && v[c] == ':' && forall k :: start <= k < c ==> v[k] != ':'
    ensures var end := if c + 1 + limit < |v| then c + 1 + limit else |v|;
            ValueAt(v, start, limit, c, v[c + 1..Py.FirstBreak(v, c + 1, end)])
  {
    hide LineBreak, Py.FirstBreak;
    var end := if c + 1 + limit < |v| then c + 1 + limit else |v|;
    FirstBreakIs(v, c + 1, end);
    var value := v[c + 1..Py.FirstBreak(v, c + 1, end)];
    forall k | 0 <= k < |value| ensures !LineBreak(value[k]) { assert value[k] == v[c + 1 + k]; }
  }

  lemma {:induction false} ColonAt(v: string, k: nat)
    requires k < |v|
    ensures At(v, k, ":") <==> v[k] == ':'
  {
    assert v[k..k + 1] == [v[k]];
  }

  // ---- letters and integers ----

  /** The letter of a choice, in either case, with no word character beside it. */
  predicate AloneIn(s: string, i: nat, n: nat, c: char)
    requires i < |s|
  {
    && 'A' <= c <= 'Z' && c as int < 'A' as int + n && (s[i] == c || s[i] as int == c as int + 32)
    && (i > 0 ==> !WordChar(s[i - 1])) && (i + 1 < |s| ==> !WordChar(s[i + 1]))
  }

  predicate NoneAlone(s: string, from: nat, end: nat, n: nat)
    requires end <= |s|
  { forall i: nat, c :: from <= i < end ==> !AloneIn(s, i, n, c) }

  lemma {:induction false} UpperAlone(s: string, i: nat, n: nat)
    requires i < |s|
    ensures var u := Py.Upper(s);
            (Py.LetterAt(u, i) && u[i] as int - 'A' as int < n ==> AloneIn(s, i, n, u[i]))
            && forall c :: AloneIn(s, i, n, c) ==> Py.LetterAt(u, i) && u[i] as int - 'A' as int < n && c == u[i]
  {
    var u := Py.Upper(s);
    assert u[i] == ToUpper(s[i]);
    assert i > 0 ==> u[i - 1] == ToUpper(s[i - 1]);
    assert i + 1 < |s| ==> u[i + 1] == ToUpper(s[i + 1]);
  }

  lemma {:induction false} FirstAlone(s: string, p: nat, n: nat)
    requires p <= |s|
    ensures var letters := Py.LetterMatches(Py.Upper(s), p, n);
            if NoneAlone(s, p, |s|, n) then letters == []
            else letters != [] && exists i: nat :: p <= i < |s| && AloneIn(s, i, n, letters[0]) && NoneAlone(s, p, i, n)
    decreases |s| - p
  {
    hide AloneIn, Py.LetterAt, Py.Upper;
    if p < |s| {
      var u := Py.Upper(s);
      UpperAlone(s, p, n);
      var letters := Py.LetterMatches(u, p, n);
      if Py.LetterAt(u, p) && u[p] as int - 'A' as int < n {
        assert letters[0] == u[p] && AloneIn(s, p, n, letters[0]) && NoneAlone(s, p, p, n);
      } else {
        FirstAlone(s, p + 1, n);
        if !NoneAlone(s, p + 1, |s|, n) {
          var i: nat :| p + 1 <= i < |s| && AloneIn(s, i, n, letters[0]) && NoneAlone(s, p + 1, i, n);
          assert NoneAlone(s, p, i, n);
        }
      }
    }
  }

  /** The letter answer: the first letter of a choice standing alone in the value behind the
      marker; without a marker, or such a letter, the runner goes on to its phrases. */
  lemma {:induction false} RunnerLetterIs(text: string, n: nat)
    ensures var v := Py.AnswerRegion(text);
            var m := Py.LastColonMarker(v);
            var r := Py.LetterAnswer(text, n);
            if m.None? then r == None
            else
              var s := Py.MarkerValueSpan(v, m.value, 96);
              if NoneAlone(s, 0, |s|, n) then r == None
              else r.Some? && |r.value| == 1
                   && exists i: nat :: i < |s| && AloneIn(s, i, n, r.value[0]) && NoneAlone(s, 0, i, n)
  {
    hide AloneIn, Py.AnswerRegion, Py.LastColonMarker, Py.MarkerValueSpan, Py.LetterMatches;
    var v := Py.AnswerRegion(text);
    var m := Py.LastColonMarker(v);
    if m.Some? {
      FirstAlone(Py.MarkerValueSpan(v, m.value, 96), 0, n);
    }
  }

  lemma {:induction false} FirstDigitIs(s: string, p: nat)
    requires p <= |s|
    ensures var i := Py.FirstDigit(s, p);
            (forall k :: p <= k < i ==> !IsDigit(s[k])) && (i < |s| ==> IsDigit(s[i]))
    decreases |s| - p
  {
    if p < |s| && !IsDigit(s[p]) {
      FirstDigitIs(s, p + 1);
    }
  }

  /** The integer answer: the number of the first digits in the value behind the marker. */
  lemma {:induction false} RunnerIntegerIs(text: string)
    ensures var v := Py.AnswerRegion(text);
            var m := Py.LastColonMarker(v);
            var r := Py.IntegerAnswer(text);
            if m.None? then r == None
            else
              var s := Py.MarkerValueSpan(v, m.value, 160);
              if NoDigit(s, 0, |s|) then r == None
              else exists digits :: FirstDigits(s, 0, |s|, digits) && AllDigits(digits) && r == Some(Dec(Value(digits)))
  {
    hide Py.AnswerRegion, Py.LastColonMarker, Py.MarkerValueSpan, Dec, Value;
    var v := Py.AnswerRegion(text);
    var m := Py.LastColonMarker(v);
    if m.Some? {
      var s := Py.MarkerValueSpan(v, m.value, 160);
      FirstDigitIs(s, 0);
      var i := Py.FirstDigit(s, 0);
      if i < |s| {
        var digits := s[i..DigitsEnd(s, i, |s|)];
        RunIs(s, i, |s|);
        assert FirstDigits(s, 0, |s|, digits);
      }
    }
  }

  /** The region behind the first close tag, or all of the text. */
  lemma {:induction false} RegionIs(text: string)
    ensures (forall i :: 0 <= i <= |text| ==> !At(text, i, "</think>")) ==> Py.AnswerRegion(text) == text
    ensures forall i: nat :: At(text, i, "</think>") && (forall j :: 0 <= j < i ==> !At(text, j, "</think>")) ==>
                               Py.AnswerRegion(text) == text[i + 8..]
  {
    FindInFirst(text, 0, |text|, THINK_CLOSE);
  }
}
