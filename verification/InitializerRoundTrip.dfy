/** Printing cases in the form of the evaluator's table and parsing the file gives
    the cases back. */
module InitializerRoundTrip {
  import opened CText
  import opened Initializer
  import opened PrintedEntry

  // ---- printing ----

  function EntriesText(cs: seq<Case>): string {
    if cs == [] then "" else "    {" + EntryText(cs[0]) + "},\n" + EntriesText(cs[1..])
  }

  function TableText(pre: string, cs: seq<Case>, post: string): string {
    pre + (MARKER + " {" + ("\n" + EntriesText(cs)) + "}" + post)
  }

  // ---- one entry ----

  /** A printed entry gives back its case, each string as its UTF-8 bytes taken for
      Latin-1, with the choices that are not empty. */
  lemma {:induction false} EntryRead(c: Case, idx: nat)
    ensures var f := FieldValues(EntryText(c));
            f.Some? && Complete(f.value) && ToCase(idx, f.value) == LatinCase(c).(index := idx, choices := NonEmpty(LatinCase(c).choices))
  {
    hide FieldLines, FieldsOf, GoodFields, StoreAll, Collect, DropEmpty, NonEmpty, At, EntryText;
    FieldsGood(c);
    ReadFieldsOf(c);
    CaseStored(LatinCase(c));
    NonEmptyOfDropped(LatinCase(c).choices);
    EntryForm(c);
    CollectFields(EntryText(c), 1, FieldsOf(c), Fields(map[], []));
  }

  lemma {:induction false} EntryForm(c: Case)
    ensures var t, lines := EntryText(c), FieldLines(FieldsOf(c));
            At(t, 1, lines) && 1 + |lines| <= |t| && t[0] == '\n' && forall i :: 1 + |lines| <= i < |t| ==> t[i] == ' '
  {
    hide FieldLines, FieldsOf;
    AtConcat("\n", FieldLines(FieldsOf(c)), "    ");
  }

  // ---- entries and the table ----

  function EntryTexts(cs: seq<Case>): seq<string> {
    if cs == [] then [] else [EntryText(cs[0])] + EntryTexts(cs[1..])
  }

  /** Where the parts of the first printed entry stand. */
  lemma {:induction false} EntryParts(t: string, i: nat, cs: seq<Case>)
    requires cs != [] && At(t, i, EntriesText(cs))
    ensures var e := i + 5 + |EntryText(cs[0])|;
            e + 3 <= |t| && At(t, i, "    ") && t[i + 4] == '{' && At(t, i + 5, EntryText(cs[0])) && t[e] == '}'
            && At(t, e + 1, ",\n") && At(t, e + 3, EntriesText(cs[1..]))
            && |EntriesText(cs)| == 5 + |EntryText(cs[0])| + 3 + |EntriesText(cs[1..])|
  {
    hide At, EntryText;
    var text, more := EntryText(cs[0]), EntriesText(cs[1..]);
    var e := i + 5 + |text|;
    AtSplit(t, i, "    {" + text + "},\n", more);
    hide EntriesText;
    AtSplit(t, i, "    {" + text, "},\n");
    AtSplit(t, i, "    {", text);
    OpeningAt(t, i);
    ClosingAt(t, e);
  }

  lemma {:induction false} OpeningAt(t: string, i: nat)
    requires At(t, i, "    {")
    ensures At(t, i, "    ") && i + 4 < |t| && t[i + 4] == '{'
  {
    assert "    {" == "    " + "{";
    AtSplit(t, i, "    ", "{");
    AtIndex(t, i + 4, "{", 0);
  }

  lemma {:induction false} ClosingAt(t: string, e: nat)
    requires At(t, e, "},\n")
    ensures e + 3 <= |t| && t[e] == '}' && At(t, e + 1, ",\n")
  {
    assert "},\n" == "}" + ",\n";
    AtSplit(t, e, "}", ",\n");
    AtIndex(t, e, "}", 0);
  }

  lemma {:induction false} BraceOverEntry(t: string, i: nat, depth: int, c: Case)
    requires At(t, i, EntryText(c))
    ensures i + |EntryText(c)| <= |t| && Brace(t, i, depth, Code) == Brace(t, i + |EntryText(c)|, depth, Code)
  {
    hide At, Brace, FieldLines, FieldsOf, GoodFields, Plain;
    FieldsGood(c);
    SeparatorPlain();
    var lines := FieldLines(FieldsOf(c));
    AtSplit(t, i, "\n" + lines, "    ");
    AtSplit(t, i, "\n", lines);
    BraceOverPlain(t, i, depth, "\n");
    BraceOverFields(t, i + 1, depth, FieldsOf(c));
    BraceOverPlain(t, i + 1 + |lines|, depth, "    ");
  }

  lemma {:induction false} BraceOverEntries(t: string, i: nat, cs: seq<Case>)
    requires At(t, i, EntriesText(cs))
    ensures i + |EntriesText(cs)| <= |t| && Brace(t, i, 1, Code) == Brace(t, i + |EntriesText(cs)|, 1, Code)
    decreases |cs|
  {
    hide At, EntryText, Brace;
    if cs == [] {
      EmptyAt(t, i);
    } else {
      EntryParts(t, i, cs);
      hide EntriesText;
      BraceOverBraced(t, i, cs[0]);
      BraceOverEntries(t, i + 5 + |EntryText(cs[0])| + 3, cs[1..]);
    }
  }

  lemma {:induction false} BraceOverBraced(t: string, i: nat, c: Case)
    requires At(t, i, "    ") && i + 5 <= |t| && t[i + 4] == '{' && At(t, i + 5, EntryText(c))
    requires var e := i + 5 + |EntryText(c)|; e + 3 <= |t| && t[e] == '}' && At(t, e + 1, ",\n")
    ensures Brace(t, i, 1, Code) == Brace(t, i + 5 + |EntryText(c)| + 3, 1, Code)
  {
    hide At, EntryText, Brace, Plain;
    SeparatorPlain();
    var e := i + 5 + |EntryText(c)|;
    BraceOverPlain(t, i, 1, "    ");
    BraceSteps(t, i + 4);
    BraceOverEntry(t, i + 5, 2, c);
    BraceSteps(t, e);
    BraceOverPlain(t, e + 1, 1, ",\n");
  }

  lemma {:induction false} BraceSteps(t: string, i: nat)
    requires i < |t|
    ensures t[i] == '{' ==> Brace(t, i, 1, Code) == Brace(t, i + 1, 2, Code)
    ensures t[i] == '}' ==> Brace(t, i, 2, Code) == Brace(t, i + 1, 1, Code)
  {
  }

  lemma {:induction false} EntriesRead(t: string, i: nat, cs: seq<Case>)
    requires At(t, i, EntriesText(cs)) && i + |EntriesText(cs)| == |t|
    ensures Entries(t, i) == Some(EntryTexts(cs))
    decreases |cs|
  {
    hide At, EntryText, Entries;
    if cs != [] {
      EntryParts(t, i, cs);
      hide EntriesText;
      EntryCut(t, i, cs[0]);
      EntriesRead(t, i + 5 + |EntryText(cs[0])| + 3, cs[1..]);
    } else {
      NoEntries(t);
    }
  }

  lemma {:induction false} NoEntries(t: string)
    ensures Entries(t, |t|) == Some([])
  {
  }

  /** The entry is cut out of its braces. */
  lemma {:induction false} EntryCut(t: string, i: nat, c: Case)
    requires At(t, i, "    ") && i + 5 <= |t| && t[i + 4] == '{' && At(t, i + 5, EntryText(c))
    requires var e := i + 5 + |EntryText(c)|; e + 3 <= |t| && t[e] == '}' && At(t, e + 1, ",\n")
    ensures Entries(t, i) == Prepend([EntryText(c)], Entries(t, i + 5 + |EntryText(c)| + 3))
  {
    hide At, EntryText, Brace, Entries, Plain;
    SeparatorPlain();
    var e := i + 5 + |EntryText(c)|;
    EntriesOver(t, i, "    ");
    BraceAfterOpen(t, i + 4);
    BraceOverEntry(t, i + 5, 1, c);
    BraceCloses(t, e);
    SliceAt(t, i + 5, EntryText(c));
    EntriesAtBrace(t, i + 4, e);
    EntriesOver(t, e + 1, ",\n");
  }

  lemma {:induction false} EntriesAtBrace(t: string, i: nat, e: nat)
    requires i < e < |t| && t[i] == '{' && Brace(t, i, 0, Code) == Some(e)
    ensures Entries(t, i) == Prepend([t[i + 1..e]], Entries(t, e + 1))
  {
    hide Brace;
  }

  lemma {:induction false} BraceCloses(t: string, e: nat)
    requires e < |t| && t[e] == '}'
    ensures Brace(t, e, 1, Code) == Some(e)
  {
  }

  lemma {:induction false} EntriesOver(t: string, i: nat, s: string)
    requires Plain(s) && At(t, i, s)
    ensures i + |s| <= |t| && Entries(t, i) == Entries(t, i + |s|)
    decreases |s|
  {
    if s != "" {
      assert s == [s[0]] + s[1..];
      AtSplit(t, i, [s[0]], s[1..]);
      AtIndex(t, i, s, 0);
      EntriesOver(t, i + 1, s[1..]);
    }
  }

  /** The cases as the parser reports them: strings as read, numbered, without empty choices. */
  function Reported(cs: seq<Case>, idx: nat): seq<Case>
    decreases |cs|
  {
    if cs == [] then []
    else [LatinCase(cs[0]).(index := idx, choices := NonEmpty(LatinCase(cs[0]).choices))] + Reported(cs[1..], idx + 1)
  }

  lemma {:induction false} CasesRead(cs: seq<Case>, idx: nat)
    ensures CasesOf(EntryTexts(cs), idx) == Some(Reported(cs, idx))
    decreases |cs|
  {
    if cs != [] {
      hide EntryText, FieldValues, ToCase, Complete, NonEmpty;
      EntryRead(cs[0], idx);
      CasesRead(cs[1..], idx + 1);
      assert EntryTexts(cs)[1..] == EntryTexts(cs[1..]);
    }
  }

  /** The marker does not occur before the table. */
  predicate MarkerFirst(pre: string) {
    FindIn(pre + MARKER, 0, |pre + MARKER|, MARKER) == Some(|pre|)
  }

  lemma {:induction false} MarkerFound(pre: string, rest: string)
    requires MarkerFirst(pre)
    ensures var t := pre + (MARKER + rest);
            FindIn(t, 0, |t|, MARKER) == Some(|pre|)
  {
    var t, head := pre + (MARKER + rest), pre + MARKER;
    hide FindIn;
    FindInFirst(head, 0, |head|, MARKER);
    FindInFirst(t, 0, |t|, MARKER);
    assert t == head + rest;
    AtConcat(pre, MARKER, rest);
    assert pre + MARKER + rest == t;
    forall j: nat | j < |pre|
      ensures !At(t, j, MARKER)
    {
      assert t[j..j + |MARKER|] == head[j..j + |MARKER|];
      assert !At(head, j, MARKER);
    }
  }

  lemma {:induction false} OpenFound(t: string, p: nat)
    requires At(t, p, MARKER + " {")
    ensures p + |MARKER| + 2 <= |t| && FindIn(t, p, |t|, "{") == Some(p + |MARKER| + 1)
  {
    var head := MARKER + " ";
    assert MARKER + " {" == head + "{" && '{' !in head;
    hide FindIn, At;
    AtSplit(t, p, head, "{");
    AtWithin(t, p + |head|, "{");
    FindInFirst(t, p, |t|, "{");
    forall j: nat | p <= j < p + |head|
      ensures !At(t, j, "{")
    {
      AtIndex(t, p, head, j - p);
      NotAt(t, j, "{", 0);
    }
  }

  /** Where the parts of the table stand. */
  lemma {:induction false} TableParts(pre: string, cs: seq<Case>, post: string)
    ensures var t, body := TableText(pre, cs, post), "\n" + EntriesText(cs);
            var open := |pre| + |MARKER| + 1;
            open + 1 + |body| < |t| && At(t, |pre|, MARKER + " {") && At(t, open + 1, body)
            && At(t, open + 1, "\n") && At(t, open + 2, EntriesText(cs))
            && t[open] == '{' && t[open + 1 + |body|] == '}' && t[open + 1..open + 1 + |body|] == body
  {
    hide EntriesText, At;
    var t, body := TableText(pre, cs, post), "\n" + EntriesText(cs);
    var open := |pre| + |MARKER| + 1;
    var head := MARKER + " {";
    assert t == pre + head + (body + "}" + post) && t == pre + head + body + ("}" + post);
    AtConcat(pre, head, body + "}" + post);
    AtConcat(pre + head, body, "}" + post);
    AtSplit(t, open + 1, "\n", EntriesText(cs));
    SliceAt(t, open + 1, body);
  }

  /** Parsing a printed table reports exactly its cases. */
  lemma {:induction false} TableRead(pre: string, cs: seq<Case>, post: string)
    requires MarkerFirst(pre)
    ensures ParseEvalCases(TableText(pre, cs, post)) == Some(Reported(cs, 0))
  {
    var t, body := TableText(pre, cs, post), "\n" + EntriesText(cs);
    var open := |pre| + |MARKER| + 1;
    hide Brace, Entries, CasesOf, FindIn, EntriesText, At, MarkerFirst;
    TableParts(pre, cs, post);
    MarkerFound(pre, " {" + body + "}" + post);
    assert t == pre + (MARKER + (" {" + body + "}" + post));
    OpenFound(t, |pre|);
    BraceAfterOpen(t, open);
    BraceOverPlain(t, open + 1, 1, "\n");
    BraceOverEntries(t, open + 2, cs);
    BraceCloses(t, open + 1 + |body|);
    BodyRead(cs);
    CasesRead(cs, 0);
  }

  lemma {:induction false} BodyRead(cs: seq<Case>)
    ensures Entries("\n" + EntriesText(cs), 0) == Some(EntryTexts(cs))
  {
    hide EntriesText, Entries;
    var body := "\n" + EntriesText(cs);
    assert At(body, 0, "\n") && At(body, 1, EntriesText(cs));
    EntriesOver(body, 0, "\n");
    EntriesRead(body, 1, cs);
  }

  predicate AsciiAll(ss: seq<string>) { forall i :: 0 <= i < |ss| ==> Ascii(ss[i]) }

  predicate AsciiCase(c: Case) {
    Ascii(c.source) && Ascii(c.id) && Ascii(c.domain) && Ascii(c.title) && Ascii(c.question)
    && AsciiAll(c.choices) && Ascii(c.answer)
  }

  /** Cases of ASCII text, numbered in order, with no empty choice. */
  predicate Canonical(cs: seq<Case>, idx: nat)
    decreases |cs|
  {
    cs == [] || (AsciiCase(cs[0]) && cs[0].index == idx && "" !in cs[0].choices && Canonical(cs[1..], idx + 1))
  }

  lemma {:induction false} LatinSame(s: string)
    ensures |AsLatin(s)| >= |s|
    ensures AsLatin(s) == s <==> Ascii(s)
    ensures AsLatin(s) == "" <==> s == ""
  {
    hide Bytes;
    if s != "" {
      LatinSame(s[1..]);
      BytesAscii(s[0]);
      assert s == [s[0]] + s[1..];
      AsciiSplit(s);
      LongBytes(s[0]);
      if AsLatin(s) == s {
        assert |Bytes(s[0])| == 1;
        assert AsLatin(s)[1..] == AsLatin(s[1..]);
      }
    }
  }

  lemma {:induction false} LongBytes(c: char)
    ensures |Bytes(c)| >= 1 && (|Bytes(c)| == 1 <==> c as int < 128)
  {
  }

  lemma {:induction false} AsciiSplit(s: string)
    requires s != ""
    ensures Ascii(s) <==> s[0] as int < 128 && Ascii(s[1..])
  {
    if Ascii(s[1..]) {
      assert forall i :: 1 <= i < |s| ==> s[i] == s[1..][i - 1];
    }
  }

  lemma {:induction false} ChoicesSame(choices: seq<string>)
    ensures |NonEmpty(LatinAll(choices))| <= |choices|
    ensures NonEmpty(LatinAll(choices)) == choices <==> AsciiAll(choices) && "" !in choices
  {
    hide AsLatin, Ascii;
    if choices != [] {
      var rest := choices[1..];
      ChoicesSame(rest);
      LatinSame(choices[0]);
      assert choices == [choices[0]] + rest && LatinAll(choices)[1..] == LatinAll(rest);
      AsciiAllSplit(choices);
      var read := NonEmpty(LatinAll(choices));
      if choices[0] == "" {
        assert read == [] + NonEmpty(LatinAll(rest)) == NonEmpty(LatinAll(rest));
      } else {
        assert read == [AsLatin(choices[0])] + NonEmpty(LatinAll(rest));
        assert read[0] == AsLatin(choices[0]) && read[1..] == NonEmpty(LatinAll(rest));
      }
    }
  }

  lemma {:induction false} AsciiAllSplit(ss: seq<string>)
    requires ss != []
    ensures AsciiAll(ss) <==> Ascii(ss[0]) && AsciiAll(ss[1..])
  {
    hide Ascii;
    if AsciiAll(ss[1..]) {
      assert forall i :: 1 <= i < |ss| ==> ss[i] == ss[1..][i - 1];
    }
  }

  lemma {:induction false} CaseSame(c: Case, idx: nat)
    ensures LatinCase(c).(index := idx, choices := NonEmpty(LatinCase(c).choices)) == c <==>
      AsciiCase(c) && c.index == idx && "" !in c.choices
  {
    LatinSame(c.source);
    LatinSame(c.id);
    LatinSame(c.domain);
    LatinSame(c.title);
    LatinSame(c.question);
    LatinSame(c.answer);
    ChoicesSame(c.choices);
    hide AsLatin, Ascii, AsciiAll, NonEmpty, LatinAll;
  }

  lemma {:induction false} ReportedSame(cs: seq<Case>, idx: nat)
    ensures Reported(cs, idx) == cs <==> Canonical(cs, idx)
    decreases |cs|
  {
    if cs != [] {
      CaseSame(cs[0], idx);
      hide LatinCase, AsciiCase;
      ReportedSame(cs[1..], idx + 1);
      assert cs == [cs[0]] + cs[1..];
      assert Reported(cs, idx)[1..] == Reported(cs[1..], idx + 1);
    }
  }

  /** The parser inverts the printer exactly on cases of ASCII text, numbered in order,
      whose choices are all non-empty. */
  lemma {:induction false} TableRoundTrips(pre: string, cs: seq<Case>, post: string)
    requires MarkerFirst(pre)
    ensures ParseEvalCases(TableText(pre, cs, post)) == Some(cs) <==> Canonical(cs, 0)
  {
    TableRead(pre, cs, post);
    ReportedSame(cs, 0);
  }
}
