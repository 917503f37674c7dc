/** Every field of a written case is read back under its own key, and the prompts and
    the output are found in their blocks. */
module TraceMetadata {
  import opened CText
  import opened Trace
  import opened TraceReader
  import opened TraceRoundTrip
  import opened Answers
  import opened Regrade
  import opened RegradeNoOp

  // ---- keys ----

  /** A key ends with its first colon and a blank. */
  predicate KeyShape(key: string) {
    |key| >= 2 && key[|key| - 2] == ':' && key[|key| - 1] == ' ' && ':' !in key[..|key| - 2]
  }

  /** A line that begins with a key begins with no other key. */
  lemma {:induction false} OneKey(key: string, other: string, value: string)
    requires KeyShape(key) && KeyShape(other) && key != other
    ensures !(key <= other + value)
  {
    var line := other + value;
    if |key| < |other| {
      assert other[..|other| - 2][|key| - 2] != ':';
      NotPrefix(key, line, |key| - 2);
    } else if |key| > |other| {
      assert key[..|key| - 2][|other| - 2] != ':';
      NotPrefix(key, line, |other| - 2);
    } else {
      assert line[..|key|] == other;
    }
  }

  lemma {:induction false} StemShape(stem: string)
    requires ':' !in stem
    ensures KeyShape(stem + ": ")
  {
    var key := stem + ": ";
    assert key[..|key| - 2] == stem;
  }

  /** The keys that the evaluator writes, without the colon. */
  function Stem(i: nat): string {
    if i == 0 then "timestamp_unix"
    else if i == 1 then "source"
    else if i == 2 then "id"
    else if i == 3 then "domain"
    else if i == 4 then "title"
    else if i == 5 then "status"
    else if i == 6 then "picked"
    else if i == 7 then "expected"
    else if i == 8 then "prompt_tokens"
    else if i == 9 then "generated_tokens"
    else if i == 10 then "elapsed_sec"
    else if i == 11 then "temperature"
    else if i == 12 then "top_p"
    else if i == 13 then "min_p"
    else if i == 14 then "think_mode_effective"
    else if i == 15 then "think_close"
    else if i == 16 then "think_close_token_index"
    else if i == 17 then "think_close_remaining_budget"
    else if i == 18 then "think_close_rank"
    else "error"
  }

  /** Which key has this length and these first two letters. */
  function Which(n: nat, a: char, b: char): nat {
    if n == 14 && a == 't' && b == 'i' then 0
    else if n == 6 && a == 's' && b == 'o' then 1
    else if n == 2 && a == 'i' && b == 'd' then 2
    else if n == 6 && a == 'd' && b == 'o' then 3
    else if n == 5 && a == 't' && b == 'i' then 4
    else if n == 6 && a == 's' && b == 't' then 5
    else if n == 6 && a == 'p' && b == 'i' then 6
    else if n == 8 && a == 'e' && b == 'x' then 7
    else if n == 13 && a == 'p' && b == 'r' then 8
    else if n == 16 && a == 'g' && b == 'e' then 9
    else if n == 11 && a == 'e' && b == 'l' then 10
    else if n == 11 && a == 't' && b == 'e' then 11
    else if n == 5 && a == 't' && b == 'o' then 12
    else if n == 5 && a == 'm' && b == 'i' then 13
    else if n == 20 && a == 't' && b == 'h' then 14
    else if n == 11 && a == 't' && b == 'h' then 15
    else if n == 23 && a == 't' && b == 'h' then 16
    else if n == 28 && a == 't' && b == 'h' then 17
    else if n == 16 && a == 't' && b == 'h' then 18
    else 19
  }

  lemma {:induction false} StemIs(i: nat)
    requires i < 20
    ensures |Stem(i)| > 1 && Which(|Stem(i)|, Stem(i)[0], Stem(i)[1]) == i && ':' !in Stem(i)
  {
  }

  function KeyName(i: nat): string { Stem(i) + ": " }

  lemma {:induction false} KeyNamesDiffer(i: nat, j: nat, value: string)
    requires i < 20 && j < 20 && i != j
    ensures !(KeyName(i) <= KeyName(j) + value)
  {
    StemIs(i);
    StemIs(j);
    StemShape(Stem(i));
    StemShape(Stem(j));
    hide Stem, Which;
    assert KeyName(i)[..|KeyName(i)| - 2] == Stem(i) && KeyName(j)[..|KeyName(j)| - 2] == Stem(j);
    OneKey(KeyName(i), KeyName(j), value);
  }

  // ---- the fields of a record ----

  /** A metadata line as key and value. */
  datatype Field = Field(key: string, value: string)

  function HeadFields(r: Record): seq<Field> {
    [Field("timestamp_unix: ", r.timestamp), Field("source: ", r.tc.source), Field("id: ", r.tc.id),
     Field("domain: ", r.tc.domain), Field("title: ", r.tc.title), Field("status: ", r.status),
     Field("picked: ", Picked(r)), Field("expected: ", r.tc.answer), Field("prompt_tokens: ", r.promptTokens),
     Field("generated_tokens: ", r.generatedTokens), Field("elapsed_sec: ", r.elapsed),
     Field("temperature: ", r.temperature), Field("top_p: ", r.topP), Field("min_p: ", r.minP),
     Field("think_mode_effective: ", r.thinkMode)]
  }

  function CloseFields(c: Close): seq<Field> {
    match c
    case NoClose => [Field("think_close: ", "none")]
    case Closed(kind, tokenIndex, remaining, rank) =>
      [Field("think_close: ", kind), Field("think_close_token_index: ", tokenIndex),
       Field("think_close_remaining_budget: ", remaining), Field("think_close_rank: ", rank)]
  }

  function ErrorFields(error: string): seq<Field> { if error == "" then [] else [Field("error: ", error)] }

  /** The fields of a record in the order in which they are written. */
  function Fields(r: Record): seq<Field> { HeadFields(r) + (CloseFields(r.close) + ErrorFields(r.error)) }

  /** The number of the key of field `i`. */
  function Code(r: Record, i: nat): nat { if i < 15 + |CloseFields(r.close)| then i else 19 }

  lemma {:induction false} HeadFieldIs(r: Record, i: nat)
    requires i < 15
    ensures |HeadFields(r)| == |HeadLines(r)| == 15
    ensures var f := HeadFields(r)[i]; f.key == KeyName(i) && HeadLines(r)[i] == f.key + f.value
  {
    assert "timestamp_unix" + ": " == "timestamp_unix: ";
    assert "source" + ": " == "source: ";
    assert "id" + ": " == "id: ";
    assert "domain" + ": " == "domain: ";
    assert "title" + ": " == "title: ";
    assert "status" + ": " == "status: ";
    assert "picked" + ": " == "picked: ";
    assert "expected" + ": " == "expected: ";
    assert "prompt_tokens" + ": " == "prompt_tokens: ";
    assert "generated_tokens" + ": " == "generated_tokens: ";
    assert "elapsed_sec" + ": " == "elapsed_sec: ";
    assert "temperature" + ": " == "temperature: ";
    assert "top_p" + ": " == "top_p: ";
    assert "min_p" + ": " == "min_p: ";
    assert "think_mode_effective" + ": " == "think_mode_effective: ";
  }

  lemma {:induction false} CloseFieldIs(c: Close, i: nat)
    requires i < |CloseFields(c)|
    ensures |CloseFields(c)| == |CloseLines(c)| <= 4
    ensures var f := CloseFields(c)[i]; f.key == KeyName(15 + i) && CloseLines(c)[i] == f.key + f.value
  {
    assert "think_close" + ": " == "think_close: ";
    assert "think_close_token_index" + ": " == "think_close_token_index: ";
    assert "think_close_remaining_budget" + ": " == "think_close_remaining_budget: ";
    assert "think_close_rank" + ": " == "think_close_rank: ";
  }

  lemma {:induction false} FieldIs(r: Record, i: nat)
    requires |r.tc.choices| <= MAX_CHOICES && i < |Fields(r)|
    ensures i < |MetaLines(r)| && Code(r, i) < 20
    ensures var f := Fields(r)[i]; f.key == KeyName(Code(r, i)) && MetaLines(r)[i] == f.key + f.value
    ensures forall j :: 0 <= j < i ==> Code(r, j) != Code(r, i)
  {
    HeadFieldIs(r, if i < 15 then i else 0);
    CloseFieldIs(r.close, if 15 <= i < 15 + |CloseFields(r.close)| then i - 15 else 0);
    assert "error" + ": " == "error: ";
    hide HeadFields, HeadLines, CloseFields, CloseLines, ChoicePart;
    assert MetaLines(r) == HeadLines(r) + (CloseLines(r.close) + (ErrorPart(r.error) + ChoicePart(r.tc.choices)));
  }

  lemma {:induction false} FieldKey(r: Record, i: nat)
    requires |r.tc.choices| <= MAX_CHOICES && i < |Fields(r)|
    ensures KeyOn(MetaLines(r), i, Fields(r)[i].key, Fields(r)[i].value)
    ensures Fields(r)[i].key != "" && Fields(r)[i].key[0] != '='
  {
    hide Fields, MetaLines, KeyName, Code;
    FieldIs(r, i);
    forall j | 0 <= j < i
      ensures !(Fields(r)[i].key <= MetaLines(r)[j])
    {
      FieldIs(r, j);
      KeyNamesDiffer(Code(r, i), Code(r, j), Fields(r)[j].value);
    }
    KeyText(Code(r, i));
  }

  lemma {:induction false} KeyText(i: nat)
    ensures KeyName(i) != "" && KeyName(i)[0] != '='
  {
    assert Stem(i)[0] != '=';
  }

  /** A key that begins a clean line is itself on one line. */
  lemma {:induction false} KeyOneLine(r: Record, i: nat, key: string, value: string)
    requires CleanRecord(r) && KeyOn(MetaLines(r), i, key, value)
    ensures '\n' !in key
  {
    MetaLinesClean(r, i);
    hide MetaLines, CleanRecord;
    assert forall j :: 0 <= j < |key| ==> MetaLines(r)[i][j] == key[j];
  }

  /** Every line of metadata gives back its own field, whatever the prompts and the
      output of the case hold. */
  lemma {:induction false} MetadataRead(t: string, p: nat, end: nat, r: Record, i: nat, size: nat)
    requires CleanRecord(r) && At(t, p, CaseText(r)) && p + |CaseText(r)| <= end <= |t|
    requires i < |Fields(r)| && FitsField(Fields(r)[i].value, size)
    ensures LineField(t, p, end, Fields(r)[i].key, size) == Some(Fields(r)[i].value)
  {
    hide Fields, MetaLines, Header, LineField, At, CaseText, FitsField, KeyOn, CleanRecord;
    RecordFits(r);
    FieldKey(r, i);
    SizePositive(Fields(r)[i].value, size);
    KeyOneLine(r, i, Fields(r)[i].key, Fields(r)[i].value);
    FieldRead(t, p, end, r, i, Fields(r)[i].key, Fields(r)[i].value, size);
  }

  lemma {:induction false} SizePositive(s: string, size: nat)
    requires FitsField(s, size)
    ensures size > 0
  {
  }

  // ---- choices ----

  function Letter(i: nat): char
    requires i < MAX_CHOICES
  { "ABCDEFGHIJ"[i] }

  lemma {:induction false} ChoiceLineAt(r: Record, i: nat)
    requires i < |r.tc.choices| <= MAX_CHOICES
    ensures var k := |Fields(r)| + 1 + i;
            k < |MetaLines(r)| && MetaLines(r)[k] == ("  " + [Letter(i)] + ". ") + r.tc.choices[i]
  {
    FieldsCount(r);
    assert Letter(i) == ('A' as int + i) as char;
    hide HeadLines, CloseLines, ErrorPart, Fields;
    var head := HeadLines(r) + CloseLines(r.close) + ErrorPart(r.error);
    assert MetaLines(r) == head + ChoicePart(r.tc.choices);
    assert MetaLines(r)[|head| + 1 + i] == ChoiceLine(r.tc.choices, i);
  }

  lemma {:induction false} FieldsCount(r: Record)
    ensures |Fields(r)| == |HeadLines(r)| + |CloseLines(r.close)| + |ErrorPart(r.error)|
  {
    hide HeadLines, HeadFields;
    HeadFieldIs(r, 0);
    CloseCount(r.close);
  }

  lemma {:induction false} CloseCount(c: Close)
    ensures |CloseFields(c)| == |CloseLines(c)|
  {
  }

  lemma {:induction false} ChoiceKey(r: Record, i: nat)
    requires i < |r.tc.choices| <= MAX_CHOICES
    ensures KeyOn(MetaLines(r), |Fields(r)| + 1 + i, "  " + [Letter(i)] + ". ", r.tc.choices[i])
  {
    hide MetaLines, Fields, KeyName, Code;
    var k, key := |Fields(r)| + 1 + i, "  " + [Letter(i)] + ". ";
    ChoiceLineAt(r, i);
    forall j | 0 <= j < k
      ensures !(key <= MetaLines(r)[j])
    {
      if j < |Fields(r)| {
        FieldIs(r, j);
        StemStart(Code(r, j));
        NotPrefix(key, MetaLines(r)[j], 0);
      } else if j == |Fields(r)| {
        ChoicesLine(r);
        NotPrefix(key, MetaLines(r)[j], 0);
      } else {
        ChoiceLineAt(r, j - |Fields(r)| - 1);
        NotPrefix(key, MetaLines(r)[j], 2);
      }
    }
  }

  lemma {:induction false} StemStart(i: nat)
    ensures |KeyName(i)| > 0 && KeyName(i)[0] != ' '
  {
    assert Stem(i)[0] != ' ';
  }

  lemma {:induction false} ChoicesLine(r: Record)
    requires 0 < |r.tc.choices| <= MAX_CHOICES
    ensures |Fields(r)| < |MetaLines(r)| && MetaLines(r)[|Fields(r)|] == "choices:"
  {
    FieldsCount(r);
    hide HeadLines, CloseLines, ErrorPart, Fields, ChoiceLines;
    var head := HeadLines(r) + CloseLines(r.close) + ErrorPart(r.error);
    assert MetaLines(r) == head + ChoicePart(r.tc.choices);
  }

  /** The i-th choice is read back under the i-th letter. */
  lemma {:induction false} ChoiceRead(t: string, p: nat, end: nat, r: Record, i: nat, size: nat)
    requires CleanRecord(r) && At(t, p, CaseText(r)) && p + |CaseText(r)| <= end <= |t|
    requires i < |r.tc.choices| && FitsField(r.tc.choices[i], size)
    ensures LineField(t, p, end, "  " + [Letter(i)] + ". ", size) == Some(r.tc.choices[i])
  {
    hide MetaLines, Header, LineField, At, CaseText, FitsField, KeyOn, CleanRecord, Fields;
    RecordFits(r);
    SizePositive(r.tc.choices[i], size);
    ChoiceKey(r, i);
    assert '\n' !in "ABCDEFGHIJ" && Letter(i) in "ABCDEFGHIJ";
    FieldRead(t, p, end, r, |Fields(r)| + 1 + i, "  " + [Letter(i)] + ". ", r.tc.choices[i], size);
  }

  // ---- the header and the blocks ----

  /** The header line gives the number of the case and of all cases. */
  lemma {:induction false} HeaderNumbers(t: string, p: nat, r: Record)
    requires At(t, p, Header(r)) && r.idx + 1 <= ULLONG_MAX && r.ncases <= ULLONG_MAX
    ensures At(t, p, "===== CASE ")
    ensures var slash := p + 11 + |Dec(r.idx + 1)|;
            p + 11 <= |t| && StrToUll(t, p + 11) == (r.idx + 1, slash) && At(t, slash, "/")
            && slash + 1 <= |t| && StrToUll(t, slash + 1).0 == r.ncases
  {
    HeaderIs(r);
    hide At, Dec, StrToUll, Header;
    var names := r.tc.source + "/" + r.tc.id + " =====";
    var first, second := Dec(r.idx + 1), Dec(r.ncases);
    AtSplit(t, p, CASE_MARKER, first + ("/" + (second + (" " + names))));
    var slash := p + 11 + |first|;
    NumberRead(t, p + 11, r.idx + 1, "/", second + (" " + names));
    AtSplit(t, slash, "/", second + (" " + names));
    NumberRead(t, slash + 1, r.ncases, " ", names);
  }

  lemma {:induction false} NumberRead(t: string, p: nat, n: nat, after: string, rest: string)
    requires n <= ULLONG_MAX && |after| == 1 && !IsDigit(after[0]) && At(t, p, Dec(n) + (after + rest))
    ensures p <= |t| && StrToUll(t, p) == (n, p + |Dec(n)|) && At(t, p + |Dec(n)|, after + rest)
  {
    hide At, Dec, StrToUll;
    AtSplit(t, p, Dec(n), after + rest);
    AtSplit(t, p + |Dec(n)|, after, rest);
    AtIndex(t, p + |Dec(n)|, after, 0);
    AtWithin(t, p, Dec(n));
    StrToUllOfDec(t, p, n);
  }

  lemma {:induction false} HeaderIs(r: Record)
    ensures Header(r) == CASE_MARKER + (Dec(r.idx + 1) + ("/" + (Dec(r.ncases) + (" " + (r.tc.source + "/" + r.tc.id + " =====")))))
  {
    hide Dec;
  }

  /** A counted block of `text` at `p`: its tag and length, the text itself, and the end
      marker on a line of its own, with a line feed supplied only when the text needs one. */
  predicate BlockAt(t: string, p: nat, tag: string, text: string) {
    var feed := if text == "" || text[|text| - 1] == '\n' then "" else "\n";
    At(t, p, tag + "_BEGIN bytes=" + Dec(|text|) + "\n" + text + feed + tag + "_END\n")
  }

  lemma {:induction false} BlockHolds(t: string, p: nat, tag: string, text: string)
    requires At(t, p, Block(tag, text))
    ensures BlockAt(t, p, tag, text)
  {
    hide At, Dec;
    var head := tag + BEGIN_BYTES + Dec(|text|) + "\n";
    var feed := if text == "" || text[|text| - 1] == '\n' then "" else "\n";
    assert Framed(text) == text + feed;
    assert Block(tag, text) == head + text + feed + tag + "_END\n";
  }

  /** After the metadata come the two prompts and the output, each in its block; from
      one block the walk steps to the next. */
  lemma {:induction false} BlocksHold(t: string, a: nat, end: nat, r: Record)
    requires |r.system| <= ULLONG_MAX && |r.question| <= ULLONG_MAX && |r.output| <= ULLONG_MAX
    requires At(t, a, Blocks(r)) && a + |Blocks(r)| <= end <= |t|
    ensures BlockAt(t, a, "SYSTEM_PROMPT", r.system)
    ensures var b := SkipBlock(t, a, end);
            b.Some? && BlockAt(t, b.value, "QUESTION_PROMPT", r.question) &&
            var c := SkipBlock(t, b.value, end);
            c.Some? && BlockAt(t, c.value, "MODEL_OUTPUT", r.output)
  {
    hide At, Block, BlockAt, SkipBlock;
    var sys, que, out := Block("SYSTEM_PROMPT", r.system), Block("QUESTION_PROMPT", r.question), Block("MODEL_OUTPUT", r.output);
    AtSplit(t, a, sys + que, out);
    AtSplit(t, a, sys, que);
    BlockHolds(t, a, "SYSTEM_PROMPT", r.system);
    BlockSkipped(t, a, end, "SYSTEM_PROMPT", r.system);
    BlockHolds(t, a + |sys|, "QUESTION_PROMPT", r.question);
    BlockSkipped(t, a + |sys|, end, "QUESTION_PROMPT", r.question);
    BlockHolds(t, a + |sys| + |que|, "MODEL_OUTPUT", r.output);
  }
}
