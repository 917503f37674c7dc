/** The regrader finds in a written file exactly the written cases, and in each of
    them the model output unchanged. */
module TraceRoundTrip {
  import opened CText
  import opened Trace
  import opened TraceReader

  // ---- counted blocks are skipped ----

  /** A word on one line, like the tag of a block. */
  predicate Word(tag: string) { forall i :: 0 <= i < |tag| ==> tag[i] != ' ' && tag[i] != '\n' }

  predicate BlockTag(tag: string) { 0 < |tag| <= 96 && Word(tag) }

  function CountLine(tag: string, text: string): string { tag + BEGIN_BYTES + Dec(|text|) }

  lemma {:induction false} CountLineOneLine(tag: string, text: string)
    requires BlockTag(tag)
    ensures '\n' !in CountLine(tag, text)
  {
    var d := Dec(|text|);
    assert forall i :: 0 <= i < |d| ==> IsDigit(d[i]);
    assert '\n' !in d && '\n' !in tag && '\n' !in BEGIN_BYTES;
  }

  /** The byte count is found right after the tag, not earlier: the tag has no space. */
  lemma {:induction false} CountFound(t: string, p: nat, lineEnd: nat, tag: string)
    requires Word(tag) && At(t, p, tag + BEGIN_BYTES)
    requires p + |tag| + |BEGIN_BYTES| <= lineEnd <= |t|
    ensures FindIn(t, p, lineEnd, BEGIN_BYTES) == Some(p + |tag|)
  {
    AtSplit(t, p, tag, BEGIN_BYTES);
    FindInFirst(t, p, lineEnd, BEGIN_BYTES);
    forall j: nat | p <= j < p + |tag|
      ensures !At(t, j, BEGIN_BYTES)
    {
      NoBlankYet(t, p, tag, j);
      NotAt(t, j, BEGIN_BYTES, 6);
    }
    hide At, FindIn, Word;
  }

  lemma {:induction false} NoBlankYet(t: string, p: nat, tag: string, j: nat)
    requires Word(tag) && At(t, p, tag) && At(t, p + |tag|, BEGIN_BYTES) && p <= j < p + |tag|
    ensures j + 6 < |t| && t[j + 6] != BEGIN_BYTES[6]
  {
    if j + 6 < p + |tag| {
      AtIndex(t, p, tag, j + 6 - p);
    } else {
      AtIndex(t, p + |tag|, BEGIN_BYTES, j + 6 - p - |tag|);
    }
  }

  /** A block, taken apart at the index where it was written. */
  lemma {:induction false} BlockParts(t: string, p: nat, tag: string, text: string)
    requires At(t, p, Block(tag, text))
    ensures At(t, p, tag + BEGIN_BYTES)
    ensures At(t, p + |tag| + |BEGIN_BYTES|, Dec(|text|))
    ensures At(t, p, CountLine(tag, text) + "\n")
    ensures var c := p + |CountLine(tag, text)| + 1;
            At(t, c, Framed(text)) && At(t, c + |Framed(text)|, tag + "_END") && At(t, c + |Framed(text)|, tag)
            && At(t, c + |Framed(text)| + |tag| + 4, "\n")
    ensures |Block(tag, text)| == |CountLine(tag, text)| + 1 + |Framed(text)| + |tag| + 5
  {
    var line := CountLine(tag, text);
    var c := p + |line| + 1;
    hide Framed, Dec, At;
    AtSplit(t, p, line + "\n" + Framed(text) + tag, "_END\n");
    AtSplit(t, p, line + "\n" + Framed(text), tag);
    AtSplit(t, p, line + "\n", Framed(text));
    AtSplit(t, p, line, "\n");
    AtSplit(t, p, tag + BEGIN_BYTES, Dec(|text|));
    assert "_END\n" == "_END" + "\n";
    AtSplit(t, c + |Framed(text)| + |tag|, "_END", "\n");
    AtJoin(t, c + |Framed(text)|, tag, "_END");
  }

  /** After the declared number of characters and at most one line feed comes the end marker. */
  lemma {:induction false} FramedEnds(t: string, c: nat, end: nat, text: string, tag: string)
    requires BlockTag(tag) && end <= |t|
    requires At(t, c, Framed(text)) && At(t, c + |Framed(text)|, tag) && c + |Framed(text)| + |tag| <= end
    ensures c + |text| <= end && SkipNewline(t, c + |text|, end) == c + |Framed(text)|
    ensures t[c..c + |text|] == text
  {
    AtIndex(t, c + |Framed(text)|, tag, 0);
    if Framed(text) != text {
      AtIndex(t, c, Framed(text), |text|);
      AtSplit(t, c, text, "\n");
    }
  }

  lemma {:induction false} BlockSkipped(t: string, p: nat, end: nat, tag: string, text: string)
    requires BlockTag(tag) && |text| <= ULLONG_MAX
    requires At(t, p, Block(tag, text)) && p + |Block(tag, text)| <= end <= |t|
    ensures SkipBlock(t, p, end) == Some(p + |Block(tag, text)|)
  {
    hide Block, Framed, Dec, StrToUll, AfterMarker, LineEnd, FindIn, At;
    BlockParts(t, p, tag, text);
    var c := p + |CountLine(tag, text)| + 1;
    CountRead(t, p, end, tag, text);
    FramedEnds(t, c, end, text, tag);
    MarkerSkipped(t, c, end, |text|, c + |Framed(text)|, tag + "_END");
  }

  /** The header line of a block: where it ends and the count it declares. */
  lemma {:induction false} CountRead(t: string, p: nat, end: nat, tag: string, text: string)
    requires BlockTag(tag) && |text| <= ULLONG_MAX
    requires At(t, p, Block(tag, text)) && p + |Block(tag, text)| <= end <= |t|
    ensures var lineEnd := p + |CountLine(tag, text)|;
            LineEnd(t, p, end) == lineEnd && lineEnd < end
            && FindIn(t, p, lineEnd, BEGIN_BYTES) == Some(p + |tag|)
            && StrToUll(t, p + |tag| + |BEGIN_BYTES|) == (|text|, lineEnd)
            && t[p..p + |tag|] == tag
  {
    hide Block, Framed, Dec, StrToUll, LineEnd, FindIn;
    BlockParts(t, p, tag, text);
    var lineEnd := p + |CountLine(tag, text)|;
    CountLineOneLine(tag, text);
    LineEndIs(t, p, end, CountLine(tag, text));
    CountFound(t, p, lineEnd, tag);
    AtSplit(t, p, CountLine(tag, text), "\n");
    AtIndex(t, lineEnd, "\n", 0);
    StrToUllOfDec(t, p + |tag| + |BEGIN_BYTES|, |text|);
    AtSplit(t, p, tag, BEGIN_BYTES);
  }

  lemma {:induction false} MarkerSkipped(t: string, content: nat, end: nat, declared: nat, m: nat, marker: string)
    requires content + declared <= end <= |t| && SkipNewline(t, content + declared, end) == m
    requires At(t, m, marker) && At(t, m + |marker|, "\n") && m + |marker| + 1 <= end
    ensures AfterMarker(t, content, end, declared, marker) == Some(m + |marker| + 1)
  {
    AtIndex(t, m + |marker|, "\n", 0);
    LineEndAt(t, m + |marker|, end, m + |marker|);
  }

  // ---- lines outside counted blocks ----

  /** A line that the walks cannot mistake for a counted block. */
  predicate CleanLine(line: string) {
    '\n' !in line && FindIn(line, 0, |line|, BEGIN_BYTES).None?
  }

  predicate PlainLine(line: string) {
    CleanLine(line) && !(CASE_MARKER <= line) && !(OUTPUT_BEGIN <= line)
  }

  predicate Plain(ls: seq<string>) { forall i :: 0 <= i < |ls| ==> PlainLine(ls[i]) }

  lemma {:induction false} CleanLineAt(t: string, p: nat, end: nat, line: string)
    requires At(t, p, line + "\n") && p + |line| < end <= |t| && CleanLine(line)
    ensures LineEnd(t, p, end) == p + |line| && NextLine(t, p, end) == p + |line| + 1
    ensures SkipBlock(t, p, end).None?
    ensures At(t, p, line)
  {
    hide LineEnd, StrToUll, AfterMarker, FindIn;
    LineEndIs(t, p, end, line);
    AtSplit(t, p, line, "\n");
    FindInFirst(line, 0, |line|, BEGIN_BYTES);
    FindInFirst(t, p, p + |line|, BEGIN_BYTES);
    forall j: nat | p <= j && j + |BEGIN_BYTES| <= p + |line|
      ensures !At(t, j, BEGIN_BYTES)
    {
      InnerSlice(t, p, line, j - p, |BEGIN_BYTES|);
      assert !At(line, j - p, BEGIN_BYTES);
    }
  }

  lemma {:induction false} InnerSlice(t: string, p: nat, line: string, i: nat, n: nat)
    requires At(t, p, line) && i + n <= |line|
    ensures t[p + i..p + i + n] == line[i..i + n]
  {
    assert line == line[..i] + line[i..i + n] + line[i + n..];
    AtSplit(t, p, line[..i] + line[i..i + n], line[i + n..]);
    AtSplit(t, p, line[..i], line[i..i + n]);
  }

  /** Whether a line starts with `prefix` can be read off the line. */
  lemma {:induction false} StartsAt(t: string, p: nat, end: nat, line: string, prefix: string)
    requires At(t, p, line) && p + |line| <= end <= |t| && LineEnd(t, p, end) == p + |line|
    ensures LineStarts(t, p, end, prefix) <==> prefix <= line
  {
    if |prefix| <= |line| {
      InnerSlice(t, p, line, 0, |prefix|);
      assert prefix <= line <==> line[..|prefix|] == prefix;
    }
  }

  lemma {:induction false} WalkLines(t: string, p: nat, end: nat, ls: seq<string>)
    requires Plain(ls) && At(t, p, Lines(ls)) && p + |Lines(ls)| <= end <= |t|
    ensures NextCase(t, p, end) == NextCase(t, p + |Lines(ls)|, end)
    ensures BlockBegin(t, p, end, OUTPUT_BEGIN) == BlockBegin(t, p + |Lines(ls)|, end, OUTPUT_BEGIN)
    decreases |ls|
  {
    hide NextCase, BlockBegin, PlainLine, At;
    if ls != [] {
      var line := ls[0];
      AtSplit(t, p, line + "\n", Lines(ls[1..]));
      WalkLine(t, p, end, line);
      WalkLines(t, p + |line| + 1, end, ls[1..]);
    }
  }

  lemma {:induction false} WalkLine(t: string, p: nat, end: nat, line: string)
    requires PlainLine(line) && At(t, p, line + "\n") && p + |line| < end <= |t|
    ensures NextCase(t, p, end) == NextCase(t, p + |line| + 1, end)
    ensures BlockBegin(t, p, end, OUTPUT_BEGIN) == BlockBegin(t, p + |line| + 1, end, OUTPUT_BEGIN)
  {
    hide SkipBlock, LineEnd, LineStarts, At;
    CleanLineAt(t, p, end, line);
    StartsAt(t, p, end, line, CASE_MARKER);
    StartsAt(t, p, end, line, OUTPUT_BEGIN);
  }

  /** A counted block is stepped over, unless it is the one looked for. */
  lemma {:induction false} WalkBlock(t: string, p: nat, end: nat, tag: string, text: string)
    requires BlockTag(tag) && |text| <= ULLONG_MAX
    requires At(t, p, Block(tag, text)) && p + |Block(tag, text)| <= end <= |t|
    ensures NextCase(t, p, end) == NextCase(t, p + |Block(tag, text)|, end)
    ensures tag[0] != 'M' ==> BlockBegin(t, p, end, OUTPUT_BEGIN)
                              == BlockBegin(t, p + |Block(tag, text)|, end, OUTPUT_BEGIN)
  {
    hide SkipBlock, LineEnd, Block, At;
    BlockSkipped(t, p, end, tag, text);
    BlockParts(t, p, tag, text);
    AtSplit(t, p, tag, BEGIN_BYTES);
    AtIndex(t, p, tag, 0);
    if tag[0] != 'M' {
      NotAt(t, p, OUTPUT_BEGIN, 0);
    }
  }

  /** The model output block is found and copied exactly. */
  lemma {:induction false} OutputRead(t: string, p: nat, end: nat, text: string)
    requires |text| <= ULLONG_MAX
    requires At(t, p, Block("MODEL_OUTPUT", text)) && p + |Block("MODEL_OUTPUT", text)| <= end <= |t|
    ensures BlockBegin(t, p, end, OUTPUT_BEGIN) == Some(p)
    ensures BlockText(t, p, end) == Some(text)
  {
    hide Block, LineEnd, StrToUll, FindIn, Framed, Dec, CountedText, At;
    var tag := "MODEL_OUTPUT";
    CountRead(t, p, end, tag, text);
    BlockParts(t, p, tag, text);
    assert tag + BEGIN_BYTES == OUTPUT_BEGIN + " bytes=";
    AtSplit(t, p, OUTPUT_BEGIN, " bytes=");
    BytesFound(t, p, p + |CountLine(tag, text)|);
    OutputCounted(t, p, end, text);
  }

  lemma {:induction false} BytesFound(t: string, p: nat, lineEnd: nat)
    requires At(t, p, OUTPUT_BEGIN + " bytes=") && p + 25 <= lineEnd <= |t|
    ensures FindIn(t, p, lineEnd, "bytes=") == Some(p + 19)
  {
    var needle := "bytes=";
    var head := OUTPUT_BEGIN + " ";
    assert OUTPUT_BEGIN + " bytes=" == head + needle;
    AtSplit(t, p, head, needle);
    FindInFirst(t, p, lineEnd, needle);
    forall j: nat | p <= j < p + 19
      ensures !At(t, j, needle)
    {
      AtIndex(t, p, head, j - p);
      NotAt(t, j, needle, 0);
    }
  }

  lemma {:induction false} OutputCounted(t: string, p: nat, end: nat, text: string)
    requires |text| <= ULLONG_MAX
    requires At(t, p, Block("MODEL_OUTPUT", text)) && p + |Block("MODEL_OUTPUT", text)| <= end <= |t|
    ensures CountedText(t, p + 25, p + |CountLine("MODEL_OUTPUT", text)|, end) == Some(text)
  {
    hide Block, LineEnd, StrToUll, FindIn, Dec, Framed, At;
    var tag := "MODEL_OUTPUT";
    CountRead(t, p, end, tag, text);
    BlockParts(t, p, tag, text);
    FramedEnds(t, p + |CountLine(tag, text)| + 1, end, text, tag);
    assert OUTPUT_END == tag + "_END";
  }

  // ---- whole cases ----

  /** The physical lines of a text; a field may itself contain line feeds. */
  function SplitLines(s: string): seq<string>
    decreases |s|
  {
    if s == "" then [] else [s[..LineEnd(s, 0, |s|)]] + SplitLines(s[NextLine(s, 0, |s|)..])
  }

  lemma {:induction false} SplitLinesJoin(s: string)
    requires s == "" || s[|s| - 1] == '\n'
    ensures Lines(SplitLines(s)) == s
    decreases |s|
  {
    hide LineEnd;
    if s != "" {
      var e := LineEnd(s, 0, |s|);
      LineEndStops(s, 0, |s|);
      var rest := s[e + 1..];
      assert s == s[..e] + "\n" + rest;
      assert rest != "" ==> rest[|rest| - 1] == s[|s| - 1];
      SplitLinesJoin(rest);
    }
  }

  lemma {:induction false} LineEndStops(t: string, p: nat, end: nat)
    requires p < end <= |t| && t[end - 1] == '\n'
    ensures LineEnd(t, p, end) < end && t[LineEnd(t, p, end)] == '\n'
    decreases end - p
  {
    if t[p] != '\n' {
      LineEndStops(t, p + 1, end);
    }
  }

  lemma {:induction false} LinesEnd(ls: seq<string>)
    ensures Lines(ls) == "" || Lines(ls)[|Lines(ls)| - 1] == '\n'
  {
    if ls != [] {
      LinesEnd(ls[1..]);
    }
  }

  /** What the framing needs of a record: no unframed line looks like a counted
      block, a case header or an output block, and sizes fit a size_t. The three
      framed texts are unconstrained. */
  predicate WellFramed(r: Record) {
    && |r.tc.choices| <= MAX_CHOICES
    && CleanLine(Header(r))
    && Plain(SplitLines(Lines(MetaLines(r))))
    && |r.system| <= ULLONG_MAX && |r.question| <= ULLONG_MAX && |r.output| <= ULLONG_MAX
  }

  predicate AllFramed(rs: seq<Record>) {
    rs == [] || (|rs[0].tc.choices| <= MAX_CHOICES && WellFramed(rs[0]) && AllFramed(rs[1..]))
  }

  /** One written case, read back. */
  lemma {:induction false} CaseRead(t: string, p: nat, end: nat, r: Record)
    requires WellFramed(r) && At(t, p, CaseText(r)) && p + |CaseText(r)| <= end <= |t|
    ensures NextCase(t, p, end) == Some(p)
    ensures NextCase(t, NextLine(t, p, end), end) == NextCase(t, p + |CaseText(r)|, end)
    ensures ModelOutput(t, p, end) == Some(r.output)
  {
    hide Header, Lines, MetaLines, Blocks, Plain, CleanLine, At, LineEnd, NextCase, BlockBegin, BlockText;
    var head := Header(r) + "\n" + Lines(MetaLines(r));
    AtSplit(t, p, head, Blocks(r) + "\n");
    AtSplit(t, p, Header(r) + "\n", Lines(MetaLines(r)));
    AtSplit(t, p + |head|, Blocks(r), "\n");
    HeaderRead(t, p, end, r);
    var h := p + |Header(r)| + 1;
    LinesEnd(MetaLines(r));
    SplitLinesJoin(Lines(MetaLines(r)));
    WalkLines(t, h, end, SplitLines(Lines(MetaLines(r))));
    BlocksRead(t, p + |head|, end, r);
  }

  lemma {:induction false} HeaderRead(t: string, p: nat, end: nat, r: Record)
    requires CleanLine(Header(r)) && At(t, p, Header(r) + "\n") && p + |Header(r)| < end <= |t|
    ensures NextCase(t, p, end) == Some(p)
    ensures NextLine(t, p, end) == p + |Header(r)| + 1
    ensures BlockBegin(t, p, end, OUTPUT_BEGIN) == BlockBegin(t, p + |Header(r)| + 1, end, OUTPUT_BEGIN)
  {
    hide Header, SkipBlock, LineEnd, CleanLine, At;
    HeaderStarts(r);
    var rest := Header(r)[|CASE_MARKER|..];
    assert Header(r) == CASE_MARKER + rest;
    CleanLineAt(t, p, end, Header(r));
    AtSplit(t, p, CASE_MARKER, rest);
    AtIndex(t, p, CASE_MARKER, 0);
    NotAt(t, p, OUTPUT_BEGIN, 0);
  }

  lemma {:induction false} HeaderStarts(r: Record)
    ensures CASE_MARKER <= Header(r)
  {
    hide Dec;
    var rest := Dec(r.idx + 1) + "/" + Dec(r.ncases) + " " + r.tc.source + "/" + r.tc.id + " =====";
    assert Header(r) == CASE_MARKER + rest;
  }

  lemma {:induction false} BlocksRead(t: string, p: nat, end: nat, r: Record)
    requires |r.system| <= ULLONG_MAX && |r.question| <= ULLONG_MAX && |r.output| <= ULLONG_MAX
    requires At(t, p, Blocks(r)) && At(t, p + |Blocks(r)|, "\n") && p + |Blocks(r)| + 1 <= end <= |t|
    ensures NextCase(t, p, end) == NextCase(t, p + |Blocks(r)| + 1, end)
    ensures var b := BlockBegin(t, p, end, OUTPUT_BEGIN);
            b.Some? && BlockText(t, b.value, end) == Some(r.output)
  {
    hide Block, At, NextCase, BlockBegin, BlockText;
    var sys, que, out := Block("SYSTEM_PROMPT", r.system), Block("QUESTION_PROMPT", r.question), Block("MODEL_OUTPUT", r.output);
    AtSplit(t, p, sys + que, out);
    AtSplit(t, p, sys, que);
    WalkBlock(t, p, end, "SYSTEM_PROMPT", r.system);
    WalkBlock(t, p + |sys|, end, "QUESTION_PROMPT", r.question);
    WalkBlock(t, p + |sys| + |que|, end, "MODEL_OUTPUT", r.output);
    OutputRead(t, p + |sys| + |que|, end, r.output);
    assert "" + "\n" == "\n";
    WalkLine(t, p + |Blocks(r)|, end, "");
  }

  // ---- whole traces ----

  /** The case spans that regrading visits: from one header to the next, the
      last one to the end of the file. */
  function CaseSpans(t: string, p: nat): seq<(nat, nat)>
    requires p <= |t|
    decreases |t| - p
  {
    var c := NextCase(t, p, |t|);
    if c.None? then []
    else
      var next := NextCase(t, NextLine(t, c.value, |t|), |t|);
      var e := if next.Some? then next.value else |t|;
      [(c.value, e)] + CaseSpans(t, e)
  }

  function Cases(rs: seq<Record>): string
    requires AllFramed(rs)
  {
    if rs == [] then ""
    else CaseText(rs[0]) + Cases(rs[1..])
  }

  /** Where the cases were written; the last one owns the rest of the file. */
  function WrittenSpans(p: nat, rs: seq<Record>, end: nat): (spans: seq<(nat, nat)>)
    requires AllFramed(rs)
    ensures |spans| == |rs|
    decreases |rs|
  {
    if rs == [] then []
    else
      var e := p + |CaseText(rs[0])|;
      [(p, if |rs| == 1 then end else e)] + WrittenSpans(e, rs[1..], end)
  }

  /** A trace file: its header lines, the cases, and the closing summary lines. */
  function TraceText(pre: seq<string>, rs: seq<Record>, post: seq<string>): string
    requires AllFramed(rs)
  {
    Lines(pre) + (Cases(rs) + Lines(post))
  }

  lemma {:induction false} SpansFound(t: string, p: nat, rs: seq<Record>, post: seq<string>)
    requires AllFramed(rs) && Plain(post)
    requires At(t, p, Cases(rs) + Lines(post)) && p + |Cases(rs)| + |Lines(post)| == |t|
    ensures CaseSpans(t, p) == WrittenSpans(p, rs, |t|)
    ensures NextCase(t, p, |t|) == if rs == [] then None else Some(p)
    decreases |rs|
  {
    hide CaseText, WellFramed, Plain, NextLine, ModelOutput, At, NextCase, Lines;
    CasesParts(t, p, rs, post);
    if rs == [] {
      WalkLines(t, p, |t|, post);
      NothingLeft(t, p + |Lines(post)|);
    } else {
      SpansFound(t, p + |CaseText(rs[0])|, rs[1..], post);
      CaseRead(t, p, |t|, rs[0]);
    }
  }

  lemma {:induction false} OutputsFound(t: string, p: nat, rs: seq<Record>, post: seq<string>, i: nat)
    requires AllFramed(rs) && Plain(post)
    requires At(t, p, Cases(rs) + Lines(post)) && p + |Cases(rs)| + |Lines(post)| == |t|
    requires i < |rs|
    ensures var (c, e) := WrittenSpans(p, rs, |t|)[i];
            c <= e <= |t| && ModelOutput(t, c, e) == Some(rs[i].output)
    decreases |rs|
  {
    hide CaseText, WellFramed, Plain, ModelOutput, At, Lines, Cases;
    CasesParts(t, p, rs, post);
    var e := p + |CaseText(rs[0])|;
    if i > 0 {
      OutputsFound(t, e, rs[1..], post, i - 1);
    } else {
      CaseRead(t, p, if |rs| == 1 then |t| else e, rs[0]);
    }
  }

  lemma {:induction false} NothingLeft(t: string, p: nat)
    requires p == |t|
    ensures NextCase(t, p, |t|).None?
  {
  }

  lemma {:induction false} CasesParts(t: string, p: nat, rs: seq<Record>, post: seq<string>)
    requires AllFramed(rs) && At(t, p, Cases(rs) + Lines(post)) && p + |Cases(rs)| + |Lines(post)| == |t|
    ensures rs == [] ==> At(t, p, Lines(post)) && p + |Lines(post)| == |t|
    ensures rs != [] ==>
              var e := p + |CaseText(rs[0])|;
              e <= |t| && At(t, p, CaseText(rs[0]))
              && At(t, e, Cases(rs[1..]) + Lines(post)) && e + |Cases(rs[1..])| + |Lines(post)| == |t|
  {
    hide CaseText, WellFramed, Lines, At, Block;
    if rs == [] {
      AtSplit(t, p, "", Lines(post));
      assert "" + Lines(post) == Lines(post);
    } else {
      assert Cases(rs) + Lines(post) == CaseText(rs[0]) + (Cases(rs[1..]) + Lines(post));
      AtSplit(t, p, CaseText(rs[0]), Cases(rs[1..]) + Lines(post));
      AtWithin(t, p, CaseText(rs[0]));
    }
  }

  /** The trace framing round trip. */
  lemma {:induction false} TraceRoundTrips(pre: seq<string>, rs: seq<Record>, post: seq<string>)
    requires AllFramed(rs) && Plain(pre) && Plain(post)
    ensures var t := TraceText(pre, rs, post);
            var spans := WrittenSpans(|Lines(pre)|, rs, |t|);
            CaseSpans(t, 0) == spans
            && forall i :: 0 <= i < |rs| ==>
                 spans[i].0 <= spans[i].1 <= |t| && ModelOutput(t, spans[i].0, spans[i].1) == Some(rs[i].output)
  {
    hide WellFramed, Plain, NextCase, ModelOutput, Lines, Cases;
    var t := TraceText(pre, rs, post);
    var p := |Lines(pre)|;
    TraceParts(pre, rs, post);
    WalkLines(t, 0, |t|, pre);
    SpansFound(t, p, rs, post);
    forall i | 0 <= i < |rs|
      ensures var (c, e) := WrittenSpans(p, rs, |t|)[i];
              c <= e <= |t| && ModelOutput(t, c, e) == Some(rs[i].output)
    {
      OutputsFound(t, p, rs, post, i);
    }
  }

  lemma {:induction false} TraceParts(pre: seq<string>, rs: seq<Record>, post: seq<string>)
    requires AllFramed(rs)
    ensures var t := TraceText(pre, rs, post);
            var p := |Lines(pre)|;
            At(t, 0, Lines(pre)) && At(t, p, Cases(rs) + Lines(post)) && p + |Cases(rs)| + |Lines(post)| == |t|
  {
    hide Lines, Cases, WellFramed;
  }
}
