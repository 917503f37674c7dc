/** Regrading a written trace judges the recorded outputs, and changes nothing on
    the trace of a run. */
module RegradeNoOp {
  import opened CText
  import opened LineSpec
  import opened Trace
  import opened TraceReader
  import opened TraceRoundTrip
  import opened Answers
  import opened Regrade

  // ---- fields are read back ----

  lemma {:induction false} NotPrefix(key: string, line: string, i: nat)
    requires i < |key| && i < |line| && key[i] != line[i]
    ensures !(key <= line)
  {
  }

  /** A field value that survives copy_span: it fits and does not end in a line break. */
  predicate FitsField(s: string, dstlen: nat) {
    |s| < dstlen && '\n' !in s && (s != "" ==> s[|s| - 1] != '\r')
  }

  lemma {:induction false} FieldHit(t: string, p: nat, end: nat, key: string, value: string, dstlen: nat)
    requires At(t, p, key + value + "\n") && p + |key| + |value| < end <= |t|
    requires '\n' !in key && FitsField(value, dstlen)
    ensures LineField(t, p, end, key, dstlen) == Some(value)
  {
    hide LineEnd;
    var line := key + value;
    LineEndIs(t, p, end, line);
    AtSplit(t, p, line, "\n");
    AtSplit(t, p, key, value);
    if value != "" {
      AtIndex(t, p + |key|, value, |value| - 1);
      assert value[|value| - 1] in value;
    }
  }

  lemma {:induction false} FieldWalk(t: string, p: nat, end: nat, ls: seq<string>, k: nat,
                                     key: string, value: string, dstlen: nat)
    requires At(t, p, Lines(ls)) && p + |Lines(ls)| <= end <= |t|
    requires k < |ls| && ls[k] == key + value
    requires forall i :: 0 <= i <= k ==> '\n' !in ls[i]
    requires forall i :: 0 <= i < k ==> !(key <= ls[i])
    requires '\n' !in key && FitsField(value, dstlen)
    ensures LineField(t, p, end, key, dstlen) == Some(value)
    decreases k
  {
    hide At, LineEnd, CopySpan;
    AtSplit(t, p, ls[0] + "\n", Lines(ls[1..]));
    if k == 0 {
      FieldHit(t, p, end, key, value, dstlen);
    } else {
      FieldSkip(t, p, end, ls[0], key, dstlen);
      FieldWalk(t, p + |ls[0]| + 1, end, ls[1..], k - 1, key, value, dstlen);
    }
  }

  lemma {:induction false} FieldSkip(t: string, p: nat, end: nat, line: string, key: string, dstlen: nat)
    requires At(t, p, line + "\n") && p + |line| < end <= |t| && dstlen > 0
    requires '\n' !in line && !(key <= line)
    ensures LineField(t, p, end, key, dstlen) == LineField(t, p + |line| + 1, end, key, dstlen)
  {
    hide LineEnd, CopySpan;
    LineEndIs(t, p, end, line);
    AtSplit(t, p, line, "\n");
    StartsAt(t, p, end, line, key);
  }

  // ---- records with single-line metadata ----

  function Picked(r: Record): string { if r.picked == "" then "?" else r.picked }

  predicate CleanLines(ls: seq<string>) { forall i :: 0 <= i < |ls| ==> CleanLine(ls[i]) }

  predicate CleanRecord(r: Record) {
    && |r.tc.choices| <= MAX_CHOICES
    && CleanLine(Header(r)) && CleanLines(MetaLines(r))
    && |r.system| <= ULLONG_MAX && |r.question| <= ULLONG_MAX && |r.output| <= ULLONG_MAX
    && FitsField(r.tc.source, SOURCE_MAX) && FitsField(r.tc.id, ID_MAX)
    && FitsField(r.status, STATUS_MAX) && FitsField(Picked(r), ANSWER_MAX)
  }

  predicate CleanRecords(rs: seq<Record>) {
    rs == [] || (CleanRecord(rs[0]) && CleanRecords(rs[1..]))
  }

  /** Every metadata line starts with a fixed key, never with '=' or 'M'. */
  lemma {:induction false} MetaLinesPlain(r: Record)
    requires |r.tc.choices| <= MAX_CHOICES && CleanLines(MetaLines(r))
    ensures Plain(MetaLines(r))
  {
    var ls := MetaLines(r);
    MetaLinesKeyed(r);
    hide MetaLines, CleanLine;
    forall i | 0 <= i < |ls|
      ensures PlainLine(ls[i])
    {
      assert Keyed(ls[i]);
      NotPrefix(CASE_MARKER, ls[i], 0);
      NotPrefix(OUTPUT_BEGIN, ls[i], 0);
    }
  }

  predicate Keyed(line: string) { line != "" && line[0] != '=' && line[0] != 'M' }

  predicate AllKeyed(ls: seq<string>) { forall i :: 0 <= i < |ls| ==> Keyed(ls[i]) }

  lemma {:induction false} MetaLinesKeyed(r: Record)
    requires |r.tc.choices| <= MAX_CHOICES
    ensures AllKeyed(MetaLines(r))
  {
    HeadLinesKeyed(r);
    assert AllKeyed(CloseLines(r.close));
    assert AllKeyed(ErrorPart(r.error) + ChoicePart(r.tc.choices));
    hide HeadLines, CloseLines, ErrorPart, ChoicePart, Keyed;
    assert MetaLines(r) == HeadLines(r) + CloseLines(r.close) + (ErrorPart(r.error) + ChoicePart(r.tc.choices));
  }

  lemma {:induction false} HeadLinesKeyed(r: Record)
    ensures AllKeyed(HeadLines(r))
  {
  }

  lemma {:induction false} SplitOfLines(ls: seq<string>)
    requires forall i :: 0 <= i < |ls| ==> '\n' !in ls[i]
    ensures SplitLines(Lines(ls)) == ls
  {
    if ls != [] {
      var s := Lines(ls);
      assert At(s, 0, ls[0] + "\n");
      LineEndIs(s, 0, |s|, ls[0]);
      assert s[..|ls[0]|] == ls[0] && s[|ls[0]| + 1..] == Lines(ls[1..]);
      assert ls == [ls[0]] + ls[1..];
      SplitOfLines(ls[1..]);
    }
  }

  lemma {:induction false} CleanIsFramed(r: Record)
    requires CleanRecord(r)
    ensures WellFramed(r)
  {
    MetaLinesPlain(r);
    forall i | 0 <= i < |MetaLines(r)|
      ensures '\n' !in MetaLines(r)[i]
    {
      assert CleanLine(MetaLines(r)[i]);
    }
    hide MetaLines, Header, CleanLine;
    SplitOfLines(MetaLines(r));
  }

  // ---- the fields of a written case ----

  lemma {:induction false} HeadLineAt(r: Record, k: nat)
    requires |r.tc.choices| <= MAX_CHOICES && k < 15
    ensures |HeadLines(r)| == 15 && k < |MetaLines(r)| && MetaLines(r)[k] == HeadLines(r)[k]
  {
    hide HeadLines, CloseLines, ErrorPart, ChoicePart;
    HeadLinesCount(r);
    var rest := CloseLines(r.close) + (ErrorPart(r.error) + ChoicePart(r.tc.choices));
    assert MetaLines(r) == HeadLines(r) + rest;
  }

  lemma {:induction false} HeadLinesCount(r: Record)
    ensures |HeadLines(r)| == 15
  {
  }

  /** The fields that regrading looks up, with the line each is on. */
  lemma {:induction false} HeadLineKeys(r: Record)
    ensures var h := HeadLines(r);
            |h| == 15 && h[1] == "source: " + r.tc.source && h[2] == "id: " + r.tc.id
            && h[5] == "status: " + r.status && h[6] == "picked: " + Picked(r)
    ensures var h := HeadLines(r);
            forall i :: 0 <= i < 7 ==>
              (i < 1 ==> !("source: " <= h[i])) && (i < 2 ==> !("id: " <= h[i]))
              && (i < 5 ==> !("status: " <= h[i])) && (i < 6 ==> !("picked: " <= h[i]))
  {
    var h := HeadLines(r);
    forall i | 0 <= i < 7
      ensures (i < 1 ==> !("source: " <= h[i])) && (i < 2 ==> !("id: " <= h[i]))
              && (i < 5 ==> !("status: " <= h[i])) && (i < 6 ==> !("picked: " <= h[i]))
    {
      if i < 1 { NotPrefix("source: ", h[i], 0); }
      if i < 2 { NotPrefix("id: ", h[i], 0); }
      if i < 5 { NotPrefix("status: ", h[i], if i == 1 then 1 else 0); }
      if i < 6 { NotPrefix("picked: ", h[i], 0); }
    }
  }

  /** The value of `key` is on line `k`, and no earlier line has that key. */
  predicate KeyOn(ls: seq<string>, k: nat, key: string, value: string) {
    k < |ls| && ls[k] == key + value && forall i :: 0 <= i < k ==> !(key <= ls[i])
  }

  lemma {:induction false} MetaKeys(r: Record)
    requires |r.tc.choices| <= MAX_CHOICES
    ensures KeyOn(MetaLines(r), 1, "source: ", r.tc.source)
    ensures KeyOn(MetaLines(r), 2, "id: ", r.tc.id)
    ensures KeyOn(MetaLines(r), 5, "status: ", r.status)
    ensures KeyOn(MetaLines(r), 6, "picked: ", Picked(r))
  {
    HeadLineKeys(r);
    forall i | 0 <= i < 7
      ensures i < |MetaLines(r)| && MetaLines(r)[i] == HeadLines(r)[i]
    {
      HeadLineAt(r, i);
    }
    hide MetaLines, HeadLines;
  }

  lemma {:induction false} FieldsRead(t: string, p: nat, end: nat, r: Record)
    requires CleanRecord(r) && At(t, p, CaseText(r)) && p + |CaseText(r)| <= end <= |t|
    ensures LineField(t, p, end, "source: ", SOURCE_MAX) == Some(r.tc.source)
    ensures LineField(t, p, end, "id: ", ID_MAX) == Some(r.tc.id)
    ensures LineField(t, p, end, "status: ", STATUS_MAX) == Some(r.status)
    ensures LineField(t, p, end, "picked: ", ANSWER_MAX) == Some(Picked(r))
  {
    RecordFits(r);
    hide MetaLines, CaseText, At, CleanRecord, LineField, KeyOn, FitsField;
    MetaKeys(r);
    FieldRead(t, p, end, r, 1, "source: ", r.tc.source, SOURCE_MAX);
    FieldRead(t, p, end, r, 2, "id: ", r.tc.id, ID_MAX);
    FieldRead(t, p, end, r, 5, "status: ", r.status, STATUS_MAX);
    FieldRead(t, p, end, r, 6, "picked: ", Picked(r), ANSWER_MAX);
  }

  lemma {:induction false} RecordFits(r: Record)
    requires CleanRecord(r)
    ensures |r.tc.choices| <= MAX_CHOICES
    ensures FitsField(r.tc.source, SOURCE_MAX) && FitsField(r.tc.id, ID_MAX)
    ensures FitsField(r.status, STATUS_MAX) && FitsField(Picked(r), ANSWER_MAX)
  {
    hide MetaLines, Header;
  }

  lemma {:induction false} FieldRead(t: string, p: nat, end: nat, r: Record, k: nat, key: string, value: string, dstlen: nat)
    requires CleanRecord(r) && At(t, p, CaseText(r)) && p + |CaseText(r)| <= end <= |t|
    requires KeyOn(MetaLines(r), k, key, value) && dstlen > 0
    requires key != "" && key[0] != '=' && '\n' !in key && FitsField(value, dstlen)
    ensures LineField(t, p, end, key, dstlen) == Some(value)
  {
    hide HeadLines, MetaLines, Header, Blocks, At, CleanRecord, LineField, Lines, CaseText, FitsField;
    RecordFits(r);
    MetaLinesClean(r, k);
    HeaderFacts(r);
    MetaAt(t, p, r);
    NotPrefix(key, Header(r), 0);
    FieldSkip(t, p, end, Header(r), key, dstlen);
    FieldWalk(t, p + |Header(r)| + 1, end, MetaLines(r), k, key, value, dstlen);
  }

  lemma {:induction false} MetaLinesClean(r: Record, k: nat)
    requires CleanRecord(r) && k < |MetaLines(r)|
    ensures forall i :: 0 <= i <= k ==> '\n' !in MetaLines(r)[i]
  {
    hide HeadLines, MetaLines, Header;
    forall i | 0 <= i <= k
      ensures '\n' !in MetaLines(r)[i]
    {
      assert CleanLine(MetaLines(r)[i]);
    }
  }

  lemma {:induction false} HeaderFacts(r: Record)
    requires CleanRecord(r)
    ensures Header(r) != "" && Header(r)[0] == '=' && '\n' !in Header(r)
  {
    hide MetaLines;
  }

  lemma {:induction false} MetaAt(t: string, p: nat, r: Record)
    requires |r.tc.choices| <= MAX_CHOICES && At(t, p, CaseText(r))
    ensures At(t, p, Header(r) + "\n") && At(t, p + |Header(r)| + 1, Lines(MetaLines(r)))
    ensures |Header(r)| + 1 + |Lines(MetaLines(r))| <= |CaseText(r)|
  {
    hide MetaLines, Header, Blocks, At, Lines;
    var head := Header(r) + "\n";
    AtSplit(t, p, head + Lines(MetaLines(r)), Blocks(r) + "\n");
    AtSplit(t, p, head, Lines(MetaLines(r)));
  }

  // ---- regrading re-judges the records ----

  /** The table entry that a record is judged by. */
  function Entry(table: seq<EvalCase>, r: Record): Option<EvalCase> {
    FindCase(table, r.tc.source, r.tc.id)
  }

  /** The present grader accepts the recorded output. */
  predicate Accepts(tc: EvalCase, r: Record) { AnswerMatches(tc, CaseAnswer(tc, r.output)) }

  /** The present verdict or the present answer is not the recorded one. */
  predicate Differs(tc: EvalCase, r: Record) {
    || (r.status != "" && (r.status == "PASSED") != Accepts(tc, r))
    || CaseAnswer(tc, r.output) != Picked(r)
  }

  function CountUnknown(table: seq<EvalCase>, rs: seq<Record>): nat {
    if rs == [] then 0 else (if Entry(table, rs[0]).None? then 1 else 0) + CountUnknown(table, rs[1..])
  }

  function CountAccepted(table: seq<EvalCase>, rs: seq<Record>): nat {
    if rs == [] then 0
    else
      var tc := Entry(table, rs[0]);
      (if tc.Some? && Accepts(tc.value, rs[0]) then 1 else 0) + CountAccepted(table, rs[1..])
  }

  function CountRejected(table: seq<EvalCase>, rs: seq<Record>): nat {
    if rs == [] then 0
    else
      var tc := Entry(table, rs[0]);
      (if tc.Some? && !Accepts(tc.value, rs[0]) then 1 else 0) + CountRejected(table, rs[1..])
  }

  function CountDiffering(table: seq<EvalCase>, rs: seq<Record>): nat {
    if rs == [] then 0
    else
      var tc := Entry(table, rs[0]);
      (if tc.Some? && Differs(tc.value, rs[0]) then 1 else 0) + CountDiffering(table, rs[1..])
  }

  predicate Known(table: seq<EvalCase>, rs: seq<Record>) {
    forall i :: 0 <= i < |rs| ==> FindCase(table, rs[i].tc.source, rs[i].tc.id) == Some(rs[i].tc)
  }

  /** An entry of a table without duplicate keys is found under its own key. */
  lemma {:induction false} UniqueKeysKnown(table: seq<EvalCase>, k: nat)
    requires k < |table|
    requires forall i, j :: 0 <= i < j < |table| ==> table[i].source != table[j].source || table[i].id != table[j].id
    ensures FindCase(table, table[k].source, table[k].id) == Some(table[k])
  {
    if k > 0 {
      UniqueKeysKnown(table[1..], k - 1);
    }
  }

  predicate KeyOf(tc: EvalCase, source: string, id: string) { tc.source == source && tc.id == id }

  /** The entry found is the first one with the key; none is found when none has it. */
  lemma {:induction false} FirstEntry(table: seq<EvalCase>, source: string, id: string)
    ensures var r := FindCase(table, source, id);
            if r.None? then forall k :: 0 <= k < |table| ==> !KeyOf(table[k], source, id)
            else exists k :: 0 <= k < |table| && table[k] == r.value && KeyOf(table[k], source, id)
                             && forall j :: 0 <= j < k ==> !KeyOf(table[j], source, id)
  {
    if table != [] {
      var r := FindCase(table, source, id);
      FirstEntry(table[1..], source, id);
      if KeyOf(table[0], source, id) {
        assert table[0] == r.value;
      } else if r.Some? {
        var k :| 0 <= k < |table[1..]| && table[1..][k] == r.value && KeyOf(table[1..][k], source, id)
                 && forall j :: 0 <= j < k ==> !KeyOf(table[1..][j], source, id);
        assert table[k + 1] == r.value;
        assert forall j :: 0 < j < k + 1 ==> table[j] == table[1..][j - 1];
      } else {
        assert forall k :: 0 < k < |table| ==> table[k] == table[1..][k - 1];
      }
    }
  }

  lemma {:induction false} CleanAllFramed(rs: seq<Record>)
    requires CleanRecords(rs)
    ensures AllFramed(rs)
  {
    if rs != [] {
      CleanIsFramed(rs[0]);
      hide CleanRecord, WellFramed;
      RecordFits(rs[0]);
      CleanAllFramed(rs[1..]);
    }
  }

  /** The counts of one record on top of earlier totals. */
  function AddOne(tot: Totals, table: seq<EvalCase>, r: Record): Totals {
    var tc := Entry(table, r);
    var next := tot.(total := tot.total + 1);
    if tc.None? then next.(unknown := tot.unknown + 1)
    else
      var judged := if Accepts(tc.value, r) then next.(passed := tot.passed + 1) else next.(failed := tot.failed + 1);
      if Differs(tc.value, r) then judged.(changed := tot.changed + 1) else judged
  }

  /** The counts of all records on top of earlier totals. */
  function AddAll(tot: Totals, table: seq<EvalCase>, rs: seq<Record>): Totals {
    Totals(tot.total + |rs|, tot.passed + CountAccepted(table, rs), tot.failed + CountRejected(table, rs),
           tot.changed + CountDiffering(table, rs), tot.unknown + CountUnknown(table, rs), tot.parseErrors)
  }

  lemma {:induction false} SpanRejudged(table: seq<EvalCase>, t: string, p: nat, e: nat, r: Record, tot: Totals)
    requires CleanRecord(r) && At(t, p, CaseText(r)) && p + |CaseText(r)| <= e <= |t|
    ensures RegradeSpan(table, t, p, e, tot) == AddOne(tot, table, r)
  {
    hide CleanRecord, WellFramed, CaseText, At, LineField, ModelOutput, FindCase, CaseAnswer, AnswerMatches;
    CleanIsFramed(r);
    FieldsRead(t, p, e, r);
    CaseRead(t, p, e, r);
  }

  lemma {:induction false} WrittenInRange(p: nat, rs: seq<Record>, end: nat)
    requires AllFramed(rs) && p + |Cases(rs)| <= end
    ensures InRange(WrittenSpans(p, rs, end), end)
    decreases |rs|
  {
    hide WellFramed, CaseText;
    if rs != [] {
      var e := p + |CaseText(rs[0])|;
      assert WrittenSpans(p, rs, end)[1..] == WrittenSpans(e, rs[1..], end);
      WrittenInRange(e, rs[1..], end);
    }
  }

  lemma {:induction false} SpansRejudged(table: seq<EvalCase>, t: string, p: nat, rs: seq<Record>,
                                         post: seq<string>, tot: Totals)
    requires AllFramed(rs) && CleanRecords(rs)
    requires At(t, p, Cases(rs) + Lines(post)) && p + |Cases(rs)| + |Lines(post)| == |t|
    requires InRange(WrittenSpans(p, rs, |t|), |t|)
    ensures RegradeSpans(table, t, WrittenSpans(p, rs, |t|), tot) == AddAll(tot, table, rs)
    decreases |rs|
  {
    hide CleanRecord, WellFramed, CaseText, At, Lines, Cases, RegradeSpan, Entry, Accepts, Differs;
    if rs == [] {
    } else {
      CasesParts(t, p, rs, post);
      var r, e := rs[0], p + |CaseText(rs[0])|;
      assert WrittenSpans(p, rs, |t|)[1..] == WrittenSpans(e, rs[1..], |t|);
      SpanRejudged(table, t, p, WrittenSpans(p, rs, |t|)[0].1, r, tot);
      SpansRejudged(table, t, e, rs[1..], post, AddOne(tot, table, r));
    }
  }

  /** Regrading a written trace counts the records, whatever verdicts are recorded:
      those the table does not know, those the present grader accepts and rejects,
      and those whose recorded verdict or answer is no longer the present one. */
  lemma {:induction false} RegradeRejudges(table: seq<EvalCase>, pre: seq<string>, rs: seq<Record>, post: seq<string>)
    requires CleanRecords(rs) && Plain(pre) && Plain(post)
    ensures AllFramed(rs)
    ensures Regraded(table, TraceText(pre, rs, post))
            == Totals(|rs|, CountAccepted(table, rs), CountRejected(table, rs), CountDiffering(table, rs),
                      CountUnknown(table, rs), 0)
  {
    hide CleanRecords, Lines, Cases, Plain, NextCase, ModelOutput, RegradeSpan,
      CountAccepted, CountRejected, CountDiffering, CountUnknown;
    CleanAllFramed(rs);
    var t := TraceText(pre, rs, post);
    var p := |Lines(pre)|;
    TraceParts(pre, rs, post);
    TraceRoundTrips(pre, rs, post);
    WrittenInRange(p, rs, |t|);
    SpansRejudged(table, t, p, rs, post, Totals(0, 0, 0, 0, 0, 0));
  }

  // ---- the answers that the extractors produce ----

  predicate AnswerChar(c: char) { IsDigit(c) || 'A' <= c <= 'Z' || c == ',' || c == '-' || c == '?' }

  predicate AnswerChars(s: string) { forall i :: 0 <= i < |s| ==> AnswerChar(s[i]) }

  /** An extracted answer: not empty, fits its buffer, and is a single plain line. */
  predicate AnswerShape(s: string) { 0 < |s| < ANSWER_MAX && AnswerChars(s) }

  lemma {:induction false} StripZerosChars(s: string)
    requires AllDigits(s)
    ensures AllDigits(StripZeros(s))
  {
    if |s| > 1 && s[0] == '0' {
      StripZerosChars(s[1..]);
    }
  }

  lemma {:induction false} RunShape(v: string, p: nat, end: nat)
    requires p < end <= |v| && IsDigit(v[p])
    ensures AnswerShape(NormalizeInteger(v[p..DigitsEnd(v, p, end)], ANSWER_MAX))
  {
    DigitsEndAll(v, p, end);
    StripZerosChars(v[p..DigitsEnd(v, p, end)]);
  }

  lemma {:induction false} FirstIntegerShape(v: string, p: nat, end: nat)
    requires p <= end <= |v|
    ensures FirstInteger(v, p, end, ANSWER_MAX).Some? ==> AnswerShape(FirstInteger(v, p, end, ANSWER_MAX).value)
    decreases end - p
  {
    if p < end {
      if IsDigit(v[p]) {
        RunShape(v, p, end);
      } else {
        FirstIntegerShape(v, p + 1, end);
      }
    }
  }

  predicate DigitRunAt(v: string, run: Option<(nat, nat)>) {
    run.Some? ==> run.value.0 < run.value.1 <= |v| && AllDigits(v[run.value.0..run.value.1])
  }

  lemma {:induction false} LastRunDigits(v: string, p: nat, last: Option<(nat, nat)>)
    requires p <= |v| && DigitRunAt(v, last)
    ensures DigitRunAt(v, LastRun(v, p, last))
    decreases |v| - p
  {
    if p < |v| {
      if IsDigit(v[p]) {
        DigitsEndAll(v, p, |v|);
        LastRunDigits(v, DigitsEnd(v, p, |v|), Some((p, DigitsEnd(v, p, |v|))));
      } else {
        LastRunDigits(v, p + 1, last);
      }
    }
  }

  lemma {:induction false} IntegerShape(generated: string)
    ensures AnswerShape(IntegerAnswer(generated, ANSWER_MAX))
  {
    hide Visible, AnswerMarker, FirstInteger, LastRun, DigitsEnd;
    var v := Visible(generated);
    var marker := AnswerMarker(v);
    if marker.Some? {
      FirstIntegerShape(v, marker.value, Window(v, marker.value, 160));
    }
    LastRunDigits(v, 0, None);
    var run := LastRun(v, 0, None);
    if run.Some? {
      StripZerosChars(v[run.value.0..run.value.1]);
    }
  }

  lemma {:induction false} PushChars(acc: string, s: string, cap: nat)
    requires |acc| <= cap && AnswerChars(acc) && AnswerChars(s)
    ensures AnswerChars(Push(acc, s, cap))
  {
  }

  lemma {:induction false} ItemChars(v: string, p: nat, end: nat, acc: string, cap: nat)
    requires p <= end <= |v| && |acc| <= cap && AnswerChars(acc)
    ensures AnswerChars(SpecItem(v, p, end, acc, cap).1)
  {
    hide Push, SpacesEnd, DigitsEnd;
    var q := DigitsEnd(v, p, end);
    DigitsEndAll(v, p, end);
    PushChars(acc, ",", cap);
    var comma := if acc != "" then Push(acc, ",", cap) else acc;
    PushChars(comma, v[p..q], cap);
    var number := Push(comma, v[p..q], cap);
    var dash := SpacesEnd(v, q, end);
    if dash < end && v[dash] == '-' {
      var from := SpacesEnd(v, dash + 1, end);
      DigitsEndAll(v, from, end);
      PushChars(number, "-", cap);
      PushChars(Push(number, "-", cap), v[from..DigitsEnd(v, from, end)], cap);
    }
  }

  lemma {:induction false} ScanChars(v: string, p: nat, end: nat, acc: string, cap: nat)
    requires end <= |v| && |acc| <= cap && AnswerChars(acc)
    ensures AnswerChars(SpecScan(v, p, end, acc, cap))
    decreases |v| + 1 - p
  {
    hide SpecItem;
    if p < end {
      if IsDigit(v[p]) {
        ItemChars(v, p, end, acc, cap);
        var (next, item) := SpecItem(v, p, end, acc, cap);
        ScanChars(v, next + 1, end, item, cap);
      } else {
        ScanChars(v, p + 1, end, acc, cap);
      }
    }
  }

  lemma {:induction false} SpecShape(v: string, p: nat, end: nat)
    requires p <= end <= |v|
    ensures AnswerShape(NormalizeSpec(v, p, end, ANSWER_MAX))
  {
    ScanChars(v, p, end, "", ANSWER_MAX - 1);
    hide SpecScan, TrimSpec;
    var s := SpecScan(v, p, end, "", ANSWER_MAX - 1);
    assert forall i :: 0 <= i < |TrimSpec(s)| ==> TrimSpec(s)[i] == s[i];
  }

  lemma {:induction false} LastLetterShape(v: string, k: nat, nchoices: nat)
    requires k <= |v| && nchoices <= MAX_CHOICES
    ensures AnswerChar(LastLetter(v, k, nchoices))
  {
    if k > 0 && !LoneLetter(v, k - 1, nchoices) {
      LastLetterShape(v, k - 1, nchoices);
    }
  }

  lemma {:induction false} FirstLetterShape(v: string, p: nat, end: nat, nchoices: nat)
    requires p <= end <= |v| && nchoices <= MAX_CHOICES
    ensures FirstLetter(v, p, end, nchoices).Some? ==> AnswerChar(FirstLetter(v, p, end, nchoices).value)
    decreases end - p
  {
    if p < end && !LoneLetter(v, p, nchoices) {
      FirstLetterShape(v, p + 1, end, nchoices);
    }
  }

  lemma {:induction false} CaseAnswerShape(tc: EvalCase, generated: string)
    requires |tc.choices| <= MAX_CHOICES
    ensures AnswerShape(CaseAnswer(tc, generated))
  {
    hide Visible, AnswerMarker, FirstLetter, LastLetter, NormalizeSpec, IntegerAnswer;
    var v := Visible(generated);
    var marker := AnswerMarker(v);
    if marker.Some? {
      FirstLetterShape(v, marker.value, Window(v, marker.value, 96), |tc.choices|);
      SpecShape(v, marker.value, LineEnd(v, marker.value, Window(v, marker.value, 160)));
    }
    LastLetterShape(v, |v|, |tc.choices|);
    IntegerShape(generated);
  }

  // ---- regrading a run changes nothing ----

  /** What run_one_case records when a case runs to its end: the extracted answer
      and the verdict on it. */
  predicate RunRecord(r: Record) {
    && |r.tc.choices| <= MAX_CHOICES
    && r.picked == CaseAnswer(r.tc, r.output)
    && r.status == (if AnswerMatches(r.tc, r.picked) then "PASSED" else "FAILED")
  }

  predicate RunRecords(rs: seq<Record>) {
    rs == [] || (RunRecord(rs[0]) && RunRecords(rs[1..]))
  }

  /** Single-line metadata that no walk mistakes for a block, and keys short
      enough for the buffers they are read into. */
  predicate PlainMetadata(r: Record) {
    && |r.tc.choices| <= MAX_CHOICES
    && CleanLine(Header(r)) && CleanLines(MetaLines(r))
    && |r.system| <= ULLONG_MAX && |r.question| <= ULLONG_MAX && |r.output| <= ULLONG_MAX
    && FitsField(r.tc.source, SOURCE_MAX) && FitsField(r.tc.id, ID_MAX)
  }

  predicate PlainRecords(rs: seq<Record>) {
    rs == [] || (PlainMetadata(rs[0]) && PlainRecords(rs[1..]))
  }

  lemma {:induction false} RunIsClean(r: Record)
    requires PlainMetadata(r) && RunRecord(r)
    ensures CleanRecord(r)
  {
    CaseAnswerShape(r.tc, r.output);
    hide MetaLines, Header, CaseAnswer, AnswerMatches, CleanLines;
    assert forall i :: 0 <= i < |r.picked| ==> AnswerChar(r.picked[i]);
  }

  lemma {:induction false} RunsAreClean(rs: seq<Record>)
    requires PlainRecords(rs) && RunRecords(rs)
    ensures CleanRecords(rs)
  {
    hide PlainMetadata, RunRecord, CleanRecord;
    if rs != [] {
      RunIsClean(rs[0]);
      RunsAreClean(rs[1..]);
    }
  }

  function CountStatus(rs: seq<Record>, status: string): nat {
    if rs == [] then 0 else (if rs[0].status == status then 1 else 0) + CountStatus(rs[1..], status)
  }

  lemma {:induction false} RunAccepted(r: Record)
    requires RunRecord(r)
    ensures Accepts(r.tc, r) <==> r.status == "PASSED"
    ensures !Accepts(r.tc, r) <==> r.status == "FAILED"
    ensures !Differs(r.tc, r)
  {
    CaseAnswerShape(r.tc, r.output);
    assert "PASSED"[0] != "FAILED"[0];
    hide CaseAnswer, AnswerMatches, AnswerChars;
  }

  lemma {:induction false} RunsAccepted(table: seq<EvalCase>, rs: seq<Record>)
    requires RunRecords(rs) && Known(table, rs)
    ensures CountUnknown(table, rs) == 0 && CountDiffering(table, rs) == 0
    ensures CountAccepted(table, rs) == CountStatus(rs, "PASSED")
    ensures CountRejected(table, rs) == CountStatus(rs, "FAILED")
  {
    hide RunRecord, FindCase, Accepts, Differs;
    if rs != [] {
      RunAccepted(rs[0]);
      assert Entry(table, rs[0]) == Some(rs[0].tc);
      assert forall i :: 0 <= i < |rs[1..]| ==> rs[1..][i] == rs[i + 1];
      RunsAccepted(table, rs[1..]);
    }
  }

  /** Regrading is a no-op on the trace of a run: every case is found and known,
      nothing changes, and the totals are those of the run. */
  lemma {:induction false} RegradeIsNoOp(table: seq<EvalCase>, pre: seq<string>, rs: seq<Record>, post: seq<string>)
    requires PlainRecords(rs) && RunRecords(rs) && Known(table, rs) && Plain(pre) && Plain(post)
    ensures AllFramed(rs)
    ensures Regraded(table, TraceText(pre, rs, post))
            == Totals(|rs|, CountStatus(rs, "PASSED"), CountStatus(rs, "FAILED"), 0, 0, 0)
  {
    hide PlainRecords, RunRecords, CleanRecords, Known, Plain, TraceText, Regraded;
    RunsAreClean(rs);
    RegradeRejudges(table, pre, rs, post);
    RunsAccepted(table, rs);
  }
}
