/** What the walks make of text that is not a well-formed block: a block counts
    only when its tag is short enough, its declared length lies inside the text
    and its end marker follows. */
module TraceDamaged {
  import opened CText
  import opened Trace
  import opened TraceReader
  import opened TraceRoundTrip

  // ---- counted blocks ----

  /** A line that declares `n` characters: the tag, the count, and what follows it. */
  function Declares(tag: string, n: nat, tail: string): string { tag + BEGIN_BYTES + Dec(n) + tail }

  predicate Tail(tail: string) { '\n' !in tail && (tail != "" ==> !IsDigit(tail[0])) }

  /** `marker` follows at `q` within the text, with or without one line feed before it. */
  predicate Follows(t: string, q: nat, end: nat, marker: string) {
    || (q + |marker| <= end && At(t, q, marker))
    || (q + 1 + |marker| <= end && At(t, q, "\n" + marker))
  }

  lemma {:induction false} DeclaresRead(t: string, p: nat, end: nat, tag: string, n: nat, tail: string)
    requires Word(tag) && Tail(tail) && n <= ULLONG_MAX
    requires At(t, p, Declares(tag, n, tail) + "\n") && p + |Declares(tag, n, tail)| < end <= |t|
    ensures LineEnd(t, p, end) == p + |Declares(tag, n, tail)|
    ensures FindIn(t, p, p + |Declares(tag, n, tail)|, BEGIN_BYTES) == Some(p + |tag|)
    ensures StrToUll(t, p + |tag| + |BEGIN_BYTES|) == (n, p + |tag| + |BEGIN_BYTES| + |Dec(n)|)
    ensures At(t, p, tag)
  {
    hide LineEnd, FindIn, StrToUll, Dec, At;
    var line := Declares(tag, n, tail);
    assert '\n' !in line by {
      var d := Dec(n);
      assert forall i :: 0 <= i < |d| ==> IsDigit(d[i]);
      assert '\n' !in d && '\n' !in tag && '\n' !in BEGIN_BYTES;
    }
    LineEndIs(t, p, end, line);
    AtSplit(t, p, line, "\n");
    AtSplit(t, p, tag + BEGIN_BYTES + Dec(n), tail);
    AtSplit(t, p, tag + BEGIN_BYTES, Dec(n));
    CountFound(t, p, p + |line|, tag);
    AtSplit(t, p, tag, BEGIN_BYTES);
    var stop := p + |tag| + |BEGIN_BYTES| + |Dec(n)|;
    if tail == "" {
      AtIndex(t, p + |line|, "\n", 0);
    } else {
      AtIndex(t, stop, tail, 0);
    }
    StrToUllOfDec(t, p + |tag| + |BEGIN_BYTES|, n);
  }

  lemma {:induction false} MarkerFollows(t: string, q: nat, end: nat, marker: string)
    requires q <= end <= |t| && marker != "" && marker[0] != '\n'
    ensures var m := SkipNewline(t, q, end);
            (m + |marker| <= end && At(t, m, marker)) <==> Follows(t, q, end, marker)
  {
    hide At;
    if q < end && t[q] == '\n' {
      if At(t, q, marker) {
        AtIndex(t, q, marker, 0);
      }
      if At(t, q, "\n" + marker) {
        AtSplit(t, q, "\n", marker);
      }
      if At(t, q + 1, marker) {
        assert At(t, q, "\n") by { hide *; LineFeedAt(t, q); }
        AtJoin(t, q, "\n", marker);
      }
    } else if q + 1 + |marker| <= end && At(t, q, "\n" + marker) {
      AtIndex(t, q, "\n" + marker, 0);
    }
  }

  lemma {:induction false} LineFeedAt(t: string, q: nat)
    requires q < |t| && t[q] == '\n'
    ensures At(t, q, "\n")
  {
  }

  /** A declared block is skipped exactly when its tag has 1 to 96 characters and
      the end marker follows the declared number of characters. */
  lemma {:induction false} SkippedIff(t: string, p: nat, end: nat, tag: string, n: nat, tail: string)
    requires Word(tag) && Tail(tail) && n <= ULLONG_MAX
    requires At(t, p, Declares(tag, n, tail) + "\n") && p + |Declares(tag, n, tail)| < end <= |t|
    ensures var content := p + |Declares(tag, n, tail)| + 1;
            SkipBlock(t, p, end).Some? <==>
              0 < |tag| <= 96 && content + n <= end && Follows(t, content + n, end, tag + "_END")
  {
    hide LineEnd, FindIn, StrToUll, Dec, At;
    DeclaresRead(t, p, end, tag, n, tail);
    var content := p + |Declares(tag, n, tail)| + 1;
    if 0 < |tag| <= 96 {
      SliceAt(t, p, tag);
      if content + n <= end {
        MarkerFollows(t, content + n, end, tag + "_END");
      }
    }
  }

  predicate NoDigits(s: string) { forall i :: 0 <= i < |s| ==> !IsDigit(s[i]) }

  /** What strtoull finds after the count's label when the line has no digit there: nothing,
      or a number that lies behind the line. */
  lemma {:induction false} NoNumber(t: string, p: nat, end: nat, rest: string)
    requires At(t, p, rest + "\n") && p + |rest| < end <= |t| && NoDigits(rest)
    ensures StrToUll(t, p).1 == p || StrToUll(t, p).1 > p + |rest|
  {
    var q := SpacesEnd(t, p, |t|);
    var d := if q < |t| && (t[q] == '+' || t[q] == '-') then q + 1 else q;
    DigitsEndAll(t, d, |t|);
    var e := DigitsEnd(t, d, |t|);
    AtSplit(t, p, rest, "\n");
    AtIndex(t, p + |rest|, "\n", 0);
    if d < e {
      assert t[d] == t[d..e][0];
      if d < p + |rest| {
        AtIndex(t, p, rest, d - p);
      }
    }
  }

  /** A line without a number after "bytes=" is no block, even when one follows on the next line. */
  lemma {:induction false} NotCounted(t: string, p: nat, end: nat, tag: string, rest: string)
    requires Word(tag) && NoDigits(rest) && '\n' !in rest
    requires At(t, p, tag + BEGIN_BYTES + rest + "\n") && p + |tag + BEGIN_BYTES + rest| < end <= |t|
    ensures SkipBlock(t, p, end) == None
  {
    hide LineEnd, FindIn, StrToUll, At, AfterMarker;
    var line := tag + BEGIN_BYTES + rest;
    assert '\n' !in line by { assert '\n' !in tag && '\n' !in BEGIN_BYTES; }
    LineEndIs(t, p, end, line);
    assert line + "\n" == (tag + BEGIN_BYTES) + (rest + "\n");
    AtSplit(t, p, tag + BEGIN_BYTES, rest + "\n");
    CountFound(t, p, p + |line|, tag);
    NoNumber(t, p + |tag| + |BEGIN_BYTES|, end, rest);
  }

  // ---- the model output ----

  /** A counted model output is returned exactly when its end marker follows the
      declared number of characters, and then it is those characters. */
  lemma {:induction false} OutputIff(t: string, p: nat, end: nat, n: nat, tail: string)
    requires Tail(tail) && n <= ULLONG_MAX
    requires At(t, p, Declares("MODEL_OUTPUT", n, tail) + "\n")
    requires p + |Declares("MODEL_OUTPUT", n, tail)| < end <= |t|
    ensures var content := p + |Declares("MODEL_OUTPUT", n, tail)| + 1;
            var out := ModelOutput(t, p, end);
            if content + n <= end && Follows(t, content + n, end, OUTPUT_END)
            then out == Some(t[content..content + n]) else out == None
  {
    hide LineEnd, FindIn, StrToUll, Dec, At, BlockBegin;
    var tag := "MODEL_OUTPUT";
    DeclaresRead(t, p, end, tag, n, tail);
    OutputHeader(t, p, end, n, tail);
    var content := p + |Declares(tag, n, tail)| + 1;
    if content + n <= end {
      MarkerFollows(t, content + n, end, OUTPUT_END);
    }
  }

  lemma {:induction false} OutputHeader(t: string, p: nat, end: nat, n: nat, tail: string)
    requires At(t, p, Declares("MODEL_OUTPUT", n, tail) + "\n")
    requires p + |Declares("MODEL_OUTPUT", n, tail)| < end <= |t|
    requires LineEnd(t, p, end) == p + |Declares("MODEL_OUTPUT", n, tail)|
    ensures BlockBegin(t, p, end, OUTPUT_BEGIN) == Some(p)
    ensures FindIn(t, p, LineEnd(t, p, end), "bytes=") == Some(p + 19)
  {
    hide LineEnd, FindIn, Dec, At;
    var line := Declares("MODEL_OUTPUT", n, tail);
    AtSplit(t, p, line, "\n");
    AtSplit(t, p, "MODEL_OUTPUT" + BEGIN_BYTES + Dec(n), tail);
    AtSplit(t, p, "MODEL_OUTPUT" + BEGIN_BYTES, Dec(n));
    assert "MODEL_OUTPUT" + BEGIN_BYTES == OUTPUT_BEGIN + " bytes=";
    AtSplit(t, p, OUTPUT_BEGIN, " bytes=");
    BytesFound(t, p, p + |line|);
  }

  /** Nor is there an output when its line says "bytes=" but no number. */
  lemma {:induction false} OutputNotCounted(t: string, p: nat, end: nat, rest: string)
    requires NoDigits(rest) && '\n' !in rest
    requires At(t, p, "MODEL_OUTPUT" + BEGIN_BYTES + rest + "\n")
    requires p + |"MODEL_OUTPUT" + BEGIN_BYTES + rest| < end <= |t|
    ensures ModelOutput(t, p, end) == None
  {
    hide LineEnd, FindIn, StrToUll, At;
    var line := "MODEL_OUTPUT" + BEGIN_BYTES + rest;
    assert '\n' !in line by { assert '\n' !in "MODEL_OUTPUT" && '\n' !in BEGIN_BYTES; }
    LineEndIs(t, p, end, line);
    assert line + "\n" == (OUTPUT_BEGIN + " bytes=") + (rest + "\n");
    AtSplit(t, p, OUTPUT_BEGIN + " bytes=", rest + "\n");
    AtSplit(t, p, OUTPUT_BEGIN, " bytes=");
    BytesFound(t, p, p + |line|);
    NoNumber(t, p + 25, end, rest);
  }

  /** Without a byte count the output is the text up to the first line that starts
      with the end marker; when there is none, there is no output. */
  lemma {:induction false} DelimitedOutput(t: string, p: nat, end: nat, line: string)
    requires OUTPUT_BEGIN <= line && '\n' !in line && FindIn(line, 0, |line|, "bytes=").None?
    requires At(t, p, line + "\n") && p + |line| < end <= |t|
    ensures var content := p + |line| + 1;
            var out := ModelOutput(t, p, end);
            if out.None? then forall q: nat :: content <= q && q + 17 <= end ==> !At(t, q, "\n" + OUTPUT_END)
            else var q := content + |out.value|;
                 At(t, content, out.value) && q + 17 <= end && At(t, q, "\n" + OUTPUT_END)
                 && forall j: nat :: content <= j < q ==> !At(t, j, "\n" + OUTPUT_END)
  {
    hide LineEnd, FindIn, At;
    var content := p + |line| + 1;
    LineEndIs(t, p, end, line);
    AtSplit(t, p, line, "\n");
    StartsAt(t, p, end, line, OUTPUT_BEGIN);
    NotInLine(t, p, line, "bytes=");
    FindInFirst(t, content, end, "\n" + OUTPUT_END);
    var finish := FindIn(t, content, end, "\n" + OUTPUT_END);
    if finish.Some? {
      SliceIsAt(t, content, finish.value);
    }
  }

  lemma {:induction false} SliceIsAt(t: string, p: nat, q: nat)
    requires p <= q <= |t|
    ensures At(t, p, t[p..q])
  {
  }

  lemma {:induction false} NotInLine(t: string, p: nat, line: string, needle: string)
    requires At(t, p, line) && p + |line| <= |t| && FindIn(line, 0, |line|, needle).None?
    ensures FindIn(t, p, p + |line|, needle).None?
  {
    hide FindIn;
    FindInFirst(line, 0, |line|, needle);
    FindInFirst(t, p, p + |line|, needle);
    forall j: nat | p <= j && j + |needle| <= p + |line|
      ensures !At(t, j, needle)
    {
      InnerSlice(t, p, line, j - p, |needle|);
      assert !At(line, j - p, needle);
    }
  }
}
